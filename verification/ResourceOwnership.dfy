/**
  Ownership in include/internal/ResourcePtr.h. Resources, deleters and pointers are named by
  numbers. Whether a deleter throws is an input; the operation then ends at that point.
 */
module ResourceOwnership {
  import opened Common

  datatype Ptr = Ptr(resource: nat, deleter: nat, initialized: bool)

  /** A call of a deleter for a resource. */
  datatype Deletion = Deletion(resource: nat, deleter: nat)

  datatype World = World(
    ptrs: map<nat, Ptr>,            // the pointers that exist
    acquired: map<nat, nat>,        // every resource handed to a pointer, with that pointer's deleter
    released: set<nat>,             // resources given back by release()
    deletions: seq<Deletion>)

  const NEW_WORLD := World(map[], map[], {}, [])

  datatype Op =
    | Construct(p: nat, deleter: nat)
    | ConstructWith(p: nat, resource: nat, deleter: nat)
    | MoveConstruct(p: nat, from: nat)
    | MoveAssign(p: nat, from: nat, throws: bool)
    | Swap(p: nat, other: nat)
    | Reset(p: nat, resource: nat, throws: bool)
    | Release(p: nat)
    | Dealloc(p: nat, throws: bool)
    | Destroy(p: nat, throws: bool)

  /** A resource can be handed over if it is new, or had been released. */
  predicate Available(w: World, resource: nat) {
    resource !in w.acquired || resource in w.released
  }

  predicate Allowed(w: World, op: Op) {
    match op
    case Construct(p, _) => p !in w.ptrs
    case ConstructWith(p, resource, _) => p !in w.ptrs && Available(w, resource)
    case MoveConstruct(p, from) => p !in w.ptrs && from in w.ptrs
    case MoveAssign(p, from, _) => p in w.ptrs && from in w.ptrs
    case Swap(p, other) => p in w.ptrs && other in w.ptrs
    case Reset(p, resource, _) => p in w.ptrs && Available(w, resource)
    case Release(p) => p in w.ptrs
    case Dealloc(p, _) => p in w.ptrs
    case Destroy(p, _) => p in w.ptrs
  }

  function Acquire(w: World, p: nat, resource: nat, deleter: nat): World {
    w.(ptrs := w.ptrs[p := Ptr(resource, deleter, true)],
       acquired := w.acquired[resource := deleter],
       released := w.released - {resource})
  }

  function GiveUp(w: World, p: nat): World
    requires p in w.ptrs
  {
    w.(ptrs := w.ptrs[p := w.ptrs[p].(initialized := false)])
  }

  /** Gives up the resource, if there is one, and calls the deleter for it. */
  function DeallocPtr(w: World, p: nat): World
    requires p in w.ptrs
  {
    var ptr := w.ptrs[p];
    if !ptr.initialized then w
    else GiveUp(w, p).(deletions := w.deletions + [Deletion(ptr.resource, ptr.deleter)])
  }

  /** The second half of the move assignment. */
  function Transfer(w: World, p: nat, from: nat): World
    requires p in w.ptrs && from in w.ptrs
  {
    w.(ptrs := w.ptrs[p := w.ptrs[from]][from := w.ptrs[from].(initialized := false)])
  }

  function ResetPtr(w: World, p: nat, resource: nat): World
    requires p in w.ptrs
  {
    var was := w.ptrs[p];
    var w' := Acquire(w, p, resource, was.deleter);
    if was.initialized then w'.(deletions := w.deletions + [Deletion(was.resource, was.deleter)]) else w'
  }

  function Apply(w: World, op: Op): World
    requires Allowed(w, op)
  {
    match op
    case Construct(p, deleter) => w.(ptrs := w.ptrs[p := Ptr(0, deleter, false)])
    case ConstructWith(p, resource, deleter) => Acquire(w, p, resource, deleter)
    case MoveConstruct(p, from) => Transfer(w.(ptrs := w.ptrs[p := w.ptrs[from].(initialized := false)]), p, from)
    case MoveAssign(p, from, throws) =>
      if w.ptrs[p].initialized && throws then DeallocPtr(w, p) else Transfer(DeallocPtr(w, p), p, from)
    case Swap(p, other) => w.(ptrs := w.ptrs[p := w.ptrs[other]][other := w.ptrs[p]])
    case Reset(p, resource, _) => ResetPtr(w, p, resource)
    case Release(p) =>
      if w.ptrs[p].initialized then GiveUp(w, p).(released := w.released + {w.ptrs[p].resource}) else w
    case Dealloc(p, _) => DeallocPtr(w, p)
    case Destroy(p, _) => DeallocPtr(w, p).(ptrs := w.ptrs - {p})
  }

  // ---- Ownership ----

  predicate Holds(w: World, p: nat, resource: nat) {
    p in w.ptrs && w.ptrs[p].initialized && w.ptrs[p].resource == resource
  }

  ghost predicate Held(w: World, resource: nat) {
    exists p :: Holds(w, p, resource)
  }

  ghost predicate Deleted(w: World, resource: nat) {
    exists i :: 0 <= i < |w.deletions| && w.deletions[i].resource == resource
  }

  ghost predicate PtrOk(w: World, p: nat) {
    p in w.ptrs && w.ptrs[p].initialized ==>
      var ptr := w.ptrs[p];
      && ptr.resource in w.acquired && w.acquired[ptr.resource] == ptr.deleter
      && ptr.resource !in w.released && !Deleted(w, ptr.resource)
  }

  /** Deleted, with its own deleter, and neither before nor since. */
  ghost predicate DeletionOk(w: World, i: nat)
    requires i < |w.deletions|
  {
    var d := w.deletions[i];
    && d.resource in w.acquired && w.acquired[d.resource] == d.deleter
    && d.resource !in w.released
    && forall j :: 0 <= j < |w.deletions| && w.deletions[j].resource == d.resource ==> j == i
  }

  ghost predicate Inv(w: World) {
    && (forall p: nat :: PtrOk(w, p))
    && (forall p, q, r :: Holds(w, p, r) && Holds(w, q, r) ==> p == q)
    && (forall i :: 0 <= i < |w.deletions| ==> DeletionOk(w, i))
    && w.released <= w.acquired.Keys
    && (forall r :: r in w.acquired ==> Held(w, r) || r in w.released || Deleted(w, r))
  }

  lemma DeallocKeepsInv(w: World, p: nat)
    requires Inv(w) && p in w.ptrs
    ensures Inv(DeallocPtr(w, p))
  {
    var w', r := DeallocPtr(w, p), w.ptrs[p].resource;
    if w.ptrs[p].initialized {
      assert PtrOk(w, p) && Holds(w, p, r);
      var n := |w.deletions|;
      assert w'.deletions[n].resource == r;
      forall x
        ensures Deleted(w', x) <==> Deleted(w, x) || x == r
      {
        if Deleted(w, x) {
          var i :| 0 <= i < n && w.deletions[i].resource == x;
          assert w'.deletions[i].resource == x;
        }
      }
      forall q: nat, x
        ensures Holds(w', q, x) <==> Holds(w, q, x) && q != p
      {
      }
      forall q: nat
        ensures PtrOk(w', q)
      {
        assert PtrOk(w, q);
        assert q != p && q in w.ptrs && w.ptrs[q].initialized ==> Holds(w, q, w.ptrs[q].resource);
      }
      forall i | 0 <= i < |w'.deletions|
        ensures DeletionOk(w', i)
      {
        assert i < n ==> DeletionOk(w, i) && Deleted(w, w.deletions[i].resource);
      }
      forall x | x in w'.acquired
        ensures Held(w', x) || x in w'.released || Deleted(w', x)
      {
        if Held(w, x) && x != r {
          var q :| Holds(w, q, x);
          assert Holds(w', q, x);
        }
      }
    }
  }

  lemma AcquireKeepsInv(w: World, p: nat, resource: nat, deleter: nat)
    requires Inv(w) && (p in w.ptrs ==> !w.ptrs[p].initialized) && Available(w, resource)
    ensures Inv(Acquire(w, p, resource, deleter))
  {
    var w' := Acquire(w, p, resource, deleter);
    NotAvailable(w, resource);
    forall x
      ensures Deleted(w', x) <==> Deleted(w, x)
    {
    }
    forall q: nat, x
      ensures Holds(w', q, x) <==> Holds(w, q, x) || (q == p && x == resource)
    {
    }
    forall q: nat
      ensures PtrOk(w', q)
    {
      assert PtrOk(w, q);
      assert q in w.ptrs && w.ptrs[q].initialized ==> Holds(w, q, w.ptrs[q].resource);
    }
    forall i | 0 <= i < |w'.deletions|
      ensures DeletionOk(w', i)
    {
      assert DeletionOk(w, i);
    }
    assert Holds(w', p, resource);
    forall x | x in w'.acquired
      ensures Held(w', x) || x in w'.released || Deleted(w', x)
    {
      if Held(w, x) {
        var q :| Holds(w, q, x);
        assert Holds(w', q, x);
      }
    }
  }

  /** What is available is neither held nor deleted. */
  lemma NotAvailable(w: World, resource: nat)
    requires Inv(w) && Available(w, resource)
    ensures !Held(w, resource) && !Deleted(w, resource)
  {
    forall p
      ensures !Holds(w, p, resource)
    {
      assert PtrOk(w, p);
    }
    forall i | 0 <= i < |w.deletions|
      ensures w.deletions[i].resource != resource
    {
      assert DeletionOk(w, i);
    }
  }

  /** Pointers pass resources on, each to one other with its deleter; `origin` says from where. */
  lemma PassingKeepsInv(w: World, w': World, origin: map<nat, nat>)
    requires Inv(w) && w'.acquired == w.acquired && w'.released == w.released && w'.deletions == w.deletions
    requires forall q, r :: Holds(w', q, r) ==>
               q in origin && Holds(w, origin[q], r) && w'.ptrs[q].deleter == w.ptrs[origin[q]].deleter
    requires forall p, q :: p in origin && q in origin && origin[p] == origin[q] ==> p == q
    requires forall r :: Held(w, r) ==> Held(w', r)
    ensures Inv(w')
  {
    forall x
      ensures Deleted(w', x) <==> Deleted(w, x)
    {
    }
    forall q: nat
      ensures PtrOk(w', q)
    {
      if q in w'.ptrs && w'.ptrs[q].initialized {
        assert Holds(w', q, w'.ptrs[q].resource);
        assert PtrOk(w, origin[q]);
      }
    }
    forall p, q, r | Holds(w', p, r) && Holds(w', q, r)
      ensures p == q
    {
      assert Holds(w, origin[p], r) && Holds(w, origin[q], r);
    }
    forall i | 0 <= i < |w'.deletions|
      ensures DeletionOk(w', i)
    {
      assert DeletionOk(w, i);
    }
  }

  lemma TransferKeepsInv(w: World, p: nat, from: nat)
    requires Inv(w) && p in w.ptrs && from in w.ptrs && !w.ptrs[p].initialized
    ensures Inv(Transfer(w, p, from))
  {
    var w' := Transfer(w, p, from);
    var origin := map q | q in w.ptrs && q != from :: if q == p then from else if q == from then p else q;
    forall q, r
      ensures Holds(w', q, r) <==> q != from && q in origin && Holds(w, origin[q], r)
    {
    }
    forall r | Held(w, r)
      ensures Held(w', r)
    {
      var q :| Holds(w, q, r);
      assert Holds(w', if q == from then p else q, r);
    }
    var used := map q | q in origin && Holds(w', q, w'.ptrs[q].resource) :: origin[q];
    forall a, b | a in used && b in used && used[a] == used[b]
      ensures a == b
    {
    }
    PassingKeepsInv(w, w', used);
  }

  lemma SwapKeepsInv(w: World, p: nat, other: nat)
    requires Inv(w) && p in w.ptrs && other in w.ptrs
    ensures Inv(Apply(w, Swap(p, other)))
  {
    var w' := Apply(w, Swap(p, other));
    var origin := map q | q in w.ptrs :: if q == p then other else if q == other then p else q;
    forall q, r
      ensures Holds(w', q, r) <==> q in origin && Holds(w, origin[q], r)
    {
    }
    forall r | Held(w, r)
      ensures Held(w', r)
    {
      var q :| Holds(w, q, r);
      assert Holds(w', origin[q], r);
    }
    PassingKeepsInv(w, w', origin);
  }

  /** Pointers without a resource come and go without consequence. */
  lemma EmptyPtrsKeepInv(w: World, w': World)
    requires Inv(w) && w'.acquired == w.acquired && w'.released == w.released && w'.deletions == w.deletions
    requires forall q, r :: Holds(w', q, r) <==> Holds(w, q, r)
    requires forall q :: q in w.ptrs && q in w'.ptrs && w'.ptrs[q].initialized ==> w'.ptrs[q] == w.ptrs[q]
    ensures Inv(w')
  {
    var origin := map q | q in w'.ptrs :: q;
    forall r | Held(w, r)
      ensures Held(w', r)
    {
      var q :| Holds(w, q, r);
      assert Holds(w', q, r);
    }
    PassingKeepsInv(w, w', origin);
  }

  lemma ReleaseKeepsInv(w: World, p: nat)
    requires Inv(w) && p in w.ptrs
    ensures Inv(Apply(w, Release(p)))
  {
    var w', r := Apply(w, Release(p)), w.ptrs[p].resource;
    if w.ptrs[p].initialized {
      assert PtrOk(w, p) && Holds(w, p, r);
      forall x
        ensures Deleted(w', x) <==> Deleted(w, x)
      {
      }
      forall q, x
        ensures Holds(w', q, x) <==> Holds(w, q, x) && q != p
      {
      }
      forall q: nat
        ensures PtrOk(w', q)
      {
        assert PtrOk(w, q);
        assert q in w.ptrs && w.ptrs[q].initialized ==> Holds(w, q, w.ptrs[q].resource);
      }
      forall i | 0 <= i < |w'.deletions|
        ensures DeletionOk(w', i)
      {
        assert DeletionOk(w, i) && Deleted(w, w.deletions[i].resource);
      }
      forall x | x in w'.acquired
        ensures Held(w', x) || x in w'.released || Deleted(w', x)
      {
        if Held(w, x) && x != r {
          var q :| Holds(w, q, x);
          assert Holds(w', q, x);
        }
      }
    }
  }

  /** reset() acquires first and deletes afterwards; the result is that of the other order. */
  lemma ResetIsDeallocAcquire(w: World, p: nat, resource: nat)
    requires p in w.ptrs
    ensures ResetPtr(w, p, resource) == Acquire(DeallocPtr(w, p), p, resource, w.ptrs[p].deleter)
  {
    assert ResetPtr(w, p, resource).ptrs == Acquire(DeallocPtr(w, p), p, resource, w.ptrs[p].deleter).ptrs;
  }

  lemma ApplyKeepsInv(w: World, op: Op)
    requires Inv(w) && Allowed(w, op)
    ensures Inv(Apply(w, op))
  {
    match op
    case Construct(p, deleter) => EmptyPtrsKeepInv(w, Apply(w, op));
    case ConstructWith(p, resource, deleter) => AcquireKeepsInv(w, p, resource, deleter);
    case MoveConstruct(p, from) =>
      var w1 := w.(ptrs := w.ptrs[p := w.ptrs[from].(initialized := false)]);
      EmptyPtrsKeepInv(w, w1);
      TransferKeepsInv(w1, p, from);
    case MoveAssign(p, from, throws) =>
      DeallocKeepsInv(w, p);
      if !(w.ptrs[p].initialized && throws) {
        TransferKeepsInv(DeallocPtr(w, p), p, from);
      }
    case Swap(p, other) => SwapKeepsInv(w, p, other);
    case Reset(p, resource, _) =>
      DeallocKeepsInv(w, p);
      ResetIsDeallocAcquire(w, p, resource);
      AcquireKeepsInv(DeallocPtr(w, p), p, resource, w.ptrs[p].deleter);
    case Release(p) => ReleaseKeepsInv(w, p);
    case Dealloc(p, _) => DeallocKeepsInv(w, p);
    case Destroy(p, _) =>
      DeallocKeepsInv(w, p);
      EmptyPtrsKeepInv(DeallocPtr(w, p), Apply(w, op));
  }

  ghost predicate RunAllowed(w: World, ops: seq<Op>)
    decreases |ops|
  {
    ops == [] || (Allowed(w, ops[0]) && RunAllowed(Apply(w, ops[0]), ops[1..]))
  }

  function Run(w: World, ops: seq<Op>): World
    requires RunAllowed(w, ops)
    decreases |ops|
  {
    if ops == [] then w else Run(Apply(w, ops[0]), ops[1..])
  }

  lemma {:induction false} RunKeepsInv(w: World, ops: seq<Op>)
    requires Inv(w) && RunAllowed(w, ops)
    ensures Inv(Run(w, ops))
    decreases |ops|
  {
    hide Inv, Apply, Allowed;
    if ops != [] {
      ApplyKeepsInv(w, ops[0]);
      RunKeepsInv(Apply(w, ops[0]), ops[1..]);
    }
  }

  /**
    After any operations on any number of pointers, with deleters that throw or not, every
    acquired resource is held by one pointer, released, or deleted, and only one of these.
   */
  lemma ExactlyOneFate(ops: seq<Op>, resource: nat)
    requires RunAllowed(NEW_WORLD, ops)
    ensures var w := Run(NEW_WORLD, ops);
            && (resource in w.acquired <==> Held(w, resource) || resource in w.released || Deleted(w, resource))
            && !(Held(w, resource) && resource in w.released)
            && !(Held(w, resource) && Deleted(w, resource))
            && !(resource in w.released && Deleted(w, resource))
            && forall p, q :: Holds(w, p, resource) && Holds(w, q, resource) ==> p == q
  {
    RunKeepsInv(NEW_WORLD, ops);
    var w := Run(NEW_WORLD, ops);
    hide Run;
    if p :| Holds(w, p, resource) {
      assert PtrOk(w, p);
    }
    if i :| 0 <= i < |w.deletions| && w.deletions[i].resource == resource {
      assert DeletionOk(w, i);
    }
  }

  /** A deleter is called at most once for a resource, even if it throws, and it is the resource's own. */
  lemma DeletedOnce(ops: seq<Op>, i: nat, j: nat)
    requires RunAllowed(NEW_WORLD, ops)
    ensures var w := Run(NEW_WORLD, ops);
            && (i < |w.deletions| && j < |w.deletions| && w.deletions[i].resource == w.deletions[j].resource ==> i == j)
            && (i < |w.deletions| ==>
                  w.deletions[i].resource in w.acquired && w.acquired[w.deletions[i].resource] == w.deletions[i].deleter)
  {
    RunKeepsInv(NEW_WORLD, ops);
    var w := Run(NEW_WORLD, ops);
    hide Run;
    if i < |w.deletions| {
      assert DeletionOk(w, i);
    }
  }

  /** Nothing leaks: once all pointers are gone, what was not released has been deleted. */
  lemma NothingLeaks(ops: seq<Op>, resource: nat)
    requires RunAllowed(NEW_WORLD, ops) && Run(NEW_WORLD, ops).ptrs == map[]
    ensures var w := Run(NEW_WORLD, ops);
            resource in w.acquired && resource !in w.released ==> Deleted(w, resource)
  {
    ExactlyOneFate(ops, resource);
  }

  // ---- What the documentation promises of single operations ----

  /** When the deleter throws, move assignment leaves its source alone, and the target without a resource. */
  lemma ThrowingMoveKeepsSource(w: World, p: nat, from: nat, resource: nat)
    requires p in w.ptrs && from in w.ptrs && p != from && w.ptrs[p].initialized
    ensures var w' := Apply(w, MoveAssign(p, from, true));
            && w'.ptrs[from] == w.ptrs[from] && !Holds(w', p, resource)
            && w'.deletions == w.deletions + [Deletion(w.ptrs[p].resource, w.ptrs[p].deleter)]
  {
  }

  /**
    Otherwise the target has a resource afterwards exactly if the source had one before, as
    documented, unless a pointer that holds a resource is assigned to itself: that deletes it.
   */
  lemma MoveAssignTransfers(w: World, p: nat, from: nat)
    requires p in w.ptrs && from in w.ptrs
    ensures var w' := Apply(w, MoveAssign(p, from, false));
            && !w'.ptrs[from].initialized
            && (w'.ptrs[p].initialized == w.ptrs[from].initialized <==> !(p == from && w.ptrs[p].initialized))
            && (p != from && w.ptrs[from].initialized ==> w'.ptrs[p] == w.ptrs[from])
            && w'.acquired == w.acquired && w'.released == w.released
  {
  }

  /** After reset() the pointer manages the new resource, whether the deleter throws or not. */
  lemma ResetManages(w: World, p: nat, resource: nat, throws: bool)
    requires Allowed(w, Reset(p, resource, throws))
    ensures Holds(Apply(w, Reset(p, resource, throws)), p, resource)
    ensures Apply(w, Reset(p, resource, true)) == Apply(w, Reset(p, resource, false))
  {
  }

  /** Swapping twice changes nothing. */
  lemma SwapTwice(w: World, p: nat, other: nat)
    requires p in w.ptrs && other in w.ptrs
    ensures var w' := Apply(w, Swap(p, other)); Allowed(w', Swap(p, other)) && Apply(w', Swap(p, other)) == w
  {
  }

  /** What a pointer has to delete: its resource, with its own deleter. */
  function Manages(w: World, p: nat): Option<Deletion> {
    if p in w.ptrs && w.ptrs[p].initialized then Some(Deletion(w.ptrs[p].resource, w.ptrs[p].deleter)) else None
  }

  /** `deleted` is deleted, if it is there, and nothing else is. */
  predicate Deletes(w: World, w': World, deleted: Option<Deletion>) {
    w'.deletions == w.deletions + (if deleted.Some? then [deleted.value] else [])
  }

  predicate Concerns(op: Op, p: nat) {
    p == op.p || ((op.MoveConstruct? || op.MoveAssign?) && p == op.from) || (op.Swap? && p == op.other)
  }

  /**
    What each operation does: who manages what afterwards, and what has been deleted, with whose
    deleter. A deleter that throws has been called nevertheless; only move assignment notices.
   */
  lemma OpEffect(w: World, op: Op)
    requires Allowed(w, op)
    ensures var w', p := Apply(w, op), op.p;
            match op
            case Construct(_, deleter) =>
              p in w'.ptrs && Manages(w', p) == None && w'.ptrs[p].deleter == deleter && Deletes(w, w', None)
            case ConstructWith(_, resource, deleter) =>
              Manages(w', p) == Some(Deletion(resource, deleter)) && Deletes(w, w', None)
            case MoveConstruct(_, from) =>
              p in w'.ptrs && Manages(w', p) == Manages(w, from) && Manages(w', from) == None && Deletes(w, w', None)
            case MoveAssign(_, from, throws) =>
              && Deletes(w, w', Manages(w, p))
              && if Manages(w, p).Some? && throws then
                   Manages(w', p) == None && (from != p ==> Manages(w', from) == Manages(w, from))
                 else Manages(w', p) == (if p == from then None else Manages(w, from)) && Manages(w', from) == None
            case Swap(_, other) =>
              Manages(w', p) == Manages(w, other) && Manages(w', other) == Manages(w, p) && Deletes(w, w', None)
            case Reset(_, resource, _) =>
              Manages(w', p) == Some(Deletion(resource, w.ptrs[p].deleter)) && Deletes(w, w', Manages(w, p))
            case Release(_) => p in w'.ptrs && Manages(w', p) == None && Deletes(w, w', None)
            case Dealloc(_, _) => p in w'.ptrs && Manages(w', p) == None && Deletes(w, w', Manages(w, p))
            case Destroy(_, _) => p !in w'.ptrs && Deletes(w, w', Manages(w, p))
    ensures Apply(w, op).released ==
            match op
            case Release(p) => w.released + (if Manages(w, p).Some? then {Manages(w, p).value.resource} else {})
            case ConstructWith(_, resource, _) => w.released - {resource}
            case Reset(_, resource, _) => w.released - {resource}
            case _ => w.released
    ensures forall i: nat :: !Concerns(op, i) ==>
              (i in Apply(w, op).ptrs <==> i in w.ptrs) && Manages(Apply(w, op), i) == Manages(w, i)
  {
  }
}
