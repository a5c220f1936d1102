/**
  ResourcePtr as an object. The deleters' calls are recorded in a log; a method that ends with
  an exception returns true in `threw`.
 */
module ResourceOwnershipObject {
  import Spec = ResourceOwnership

  class DeleterLog {
    var calls: seq<Spec.Deletion>

    constructor ()
      ensures calls == []
    {
      calls := [];
    }
  }

  class ResourcePtr {
    var resource: nat
    var deleter: nat
    var initialized: bool

    function Value(): Spec.Ptr
      reads this
    {
      Spec.Ptr(resource, deleter, initialized)
    }

    /** This object is the pointer `p` of a world. */
    ghost predicate Is(w: Spec.World, p: nat)
      reads this
    {
      p in w.ptrs && w.ptrs[p] == Value()
    }

    constructor (deleter: nat)
      ensures !initialized && this.deleter == deleter
    {
      this.resource, this.deleter, initialized := 0, deleter, false;
    }

    constructor With(resource: nat, deleter: nat)
      ensures Value() == Spec.Ptr(resource, deleter, true)
    {
      this.resource, this.deleter, initialized := resource, deleter, true;
    }

    /** The move constructor. */
    constructor From(r: ResourcePtr)
      modifies r
      ensures Value() == old(r.Value())
      ensures r.Value() == old(r.Value()).(initialized := false)
    {
      resource, deleter, initialized := r.resource, r.deleter, r.initialized;
      new;
      r.initialized := false;
    }

    method MoveAssign(r: ResourcePtr, throws: bool, log: DeleterLog) returns (threw: bool)
      modifies this, r, log
      ensures threw <==> old(initialized) && throws
      ensures log.calls == old(log.calls) + (if old(initialized) then [Spec.Deletion(old(resource), old(deleter))] else [])
      ensures threw ==> Value() == old(Value()).(initialized := false) && (r != this ==> r.Value() == old(r.Value()))
      ensures !threw && r != this ==> Value() == old(r.Value()) && r.Value() == old(r.Value()).(initialized := false)
      ensures !threw && r == this ==> !initialized
      ensures forall w: Spec.World, p, from ::
                old(Is(w, p)) && old(r.Is(w, from)) && (p == from <==> r == this) && w.deletions == old(log.calls) ==>
                  var w' := Spec.Apply(w, Spec.MoveAssign(p, from, throws));
                  Is(w', p) && r.Is(w', from) && w'.deletions == log.calls
    {
      if initialized {
        initialized := false;
        log.calls := log.calls + [Spec.Deletion(resource, deleter)];
        if throws {
          return true;
        }
      }
      resource := r.resource;
      initialized := r.initialized;
      r.initialized := false;
      deleter := r.deleter;
      threw := false;
    }

    method Swap(other: ResourcePtr)
      modifies this, other
      ensures Value() == old(other.Value()) && other.Value() == old(Value())
      ensures forall w: Spec.World, p, q ::
                old(Is(w, p)) && old(other.Is(w, q)) && (p == q <==> other == this) ==>
                  Is(Spec.Apply(w, Spec.Swap(p, q)), p) && other.Is(Spec.Apply(w, Spec.Swap(p, q)), q)
    {
      if this == other {
        return;
      }
      resource, other.resource := other.resource, resource;
      deleter, other.deleter := other.deleter, deleter;
      initialized, other.initialized := other.initialized, initialized;
    }

    method Reset(r: nat, throws: bool, log: DeleterLog) returns (threw: bool)
      modifies this, log
      ensures Value() == Spec.Ptr(r, old(deleter), true)
      ensures log.calls == old(log.calls) + (if old(initialized) then [Spec.Deletion(old(resource), old(deleter))] else [])
      ensures threw <==> old(initialized) && throws
      ensures forall w: Spec.World, p ::
                old(Is(w, p)) && w.deletions == old(log.calls) && Spec.Available(w, r) ==>
                  var w' := Spec.Apply(w, Spec.Reset(p, r, throws)); Is(w', p) && w'.deletions == log.calls
    {
      var hasOld := initialized;
      var oldResource := 0;
      if hasOld {
        oldResource := resource;
      }
      resource := r;
      initialized := true;
      threw := false;
      if hasOld {
        log.calls := log.calls + [Spec.Deletion(oldResource, deleter)];
        threw := throws;
      }
    }

    /** Throws a logic_error, and returns nothing of use, if no resource is held. */
    method Release() returns (r: nat, threw: bool)
      modifies this
      ensures threw <==> !old(initialized)
      ensures Value() == old(Value()).(initialized := false)
      ensures !threw ==> r == old(resource)
      ensures forall w: Spec.World, p :: old(Is(w, p)) ==>
                Is(Spec.Apply(w, Spec.Release(p)), p) && (!threw ==> r in Spec.Apply(w, Spec.Release(p)).released)
    {
      if !initialized {
        return 0, true;
      }
      initialized := false;
      return resource, false;
    }

    method Dealloc(throws: bool, log: DeleterLog) returns (threw: bool)
      modifies this, log
      ensures Value() == old(Value()).(initialized := false)
      ensures log.calls == old(log.calls) + (if old(initialized) then [Spec.Deletion(old(resource), old(deleter))] else [])
      ensures threw <==> old(initialized) && throws
      ensures forall w: Spec.World, p :: old(Is(w, p)) && w.deletions == old(log.calls) ==>
                var w' := Spec.Apply(w, Spec.Dealloc(p, throws)); Is(w', p) && w'.deletions == log.calls
    {
      if !initialized {
        return false;
      }
      initialized := false;
      log.calls := log.calls + [Spec.Deletion(resource, deleter)];
      threw := throws;
    }

    /** The destructor: exceptions of the deleter end here. */
    method Destroy(throws: bool, log: DeleterLog)
      modifies this, log
      ensures !initialized
      ensures log.calls == old(log.calls) + (if old(initialized) then [Spec.Deletion(old(resource), old(deleter))] else [])
    {
      var threw := Dealloc(throws, log);
    }
  }
}
