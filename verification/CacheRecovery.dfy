/**
  Recovery from a corrupt database in include/internal/cachehelper.h. The cache underneath is a
  map with a size limit; what goes wrong in it, and what it evicts, is an input of each call.
 */
module CacheRecovery {
  import opened Common

  /** What is thrown; only a system_error carries a code. */
  datatype Error = SystemError(code: int) | OtherError(what: string)

  const CORRUPT := SystemError(666)

  datatype Store = Store(entries: map<string, string>, maxSize: nat)

  datatype StoreOp = Get(key: string) | Put(key: string, value: string) | Invalidate | Compact

  datatype Answer = Found(value: string) | Absent | Stored(ok: bool) | Done

  datatype Outcome = Ok(answer: Answer) | Err(error: Error)

  /** What an attempt meets: it works and evicts some entries, or it throws, with some entries damaged. */
  datatype Fate = Works(evicted: set<string>) | Throws(error: Error, lost: set<string>)

  /** One run of an operation: on what, and what came of it. */
  datatype Attempted = Attempted(before: Store, outcome: Outcome)

  /** The helper: what is on disk, if the directory exists, whether c_ is set, and all runs of operations so far. */
  datatype Helper = Helper(disk: Option<Store>, isOpen: bool, size: nat, attempts: seq<Attempted>)

  function Empty(size: nat): Store {
    Store(map[], size)
  }

  function Perform(s: Store, op: StoreOp): (Store, Answer) {
    match op
    case Get(key) => (s, if key in s.entries then Found(s.entries[key]) else Absent)
    case Put(key, value) =>
      if |key| + |value| > s.maxSize then (s, Stored(false))
      else (s.(entries := s.entries[key := value]), Stored(true))
    case Invalidate => (s.(entries := map[]), Done)
    case Compact => (s, Done)
  }

  /** A value that has just been stored is not evicted by the same operation. */
  function Attempt(s: Store, op: StoreOp, fate: Fate): (Store, Outcome) {
    match fate
    case Works(evicted) =>
      var (s', answer) := Perform(s, op);
      var others := if answer == Stored(true) then evicted - {op.key} else evicted;
      (s'.(entries := s'.entries - others), Ok(answer))
    case Throws(error, lost) => (s.(entries := s.entries - lost), Err(error))
  }

  /** CacheT::open with a size: a new cache, or the old one unless its size differs (logic_error). */
  function Open(disk: Option<Store>, size: nat): Option<Store> {
    match disk
    case None => Some(Empty(size))
    case Some(s) => if s.maxSize == size then disk else None
  }

  /** init_cache; reducing the size may evict entries. */
  function InitCache(disk: Option<Store>, size: nat, evicted: set<string>): Store {
    match Open(disk, size)
    case Some(s) => s
    case None => Store(disk.value.entries - evicted, size)
  }

  /** It always opens a cache of the configured size, whose entries were there before. */
  lemma InitCacheResizes(disk: Option<Store>, size: nat, evicted: set<string>)
    ensures var s := InitCache(disk, size, evicted);
            && s.maxSize == size
            && (disk.None? ==> s.entries == map[])
            && (disk.Some? ==>
                  s.entries == if disk.value.maxSize == size then disk.value.entries else disk.value.entries - evicted)
  {
  }

  /** How deleting the directory and opening a new cache go. */
  datatype Repair = Repaired | CannotRemove(error: Error) | CannotOpen(error: Error)

  /** func() in call(). */
  function Try(h: Helper, op: StoreOp, fate: Fate): (Helper, Outcome)
    requires h.disk.Some?
  {
    var (s, outcome) := Attempt(h.disk.value, op, fate);
    (h.(disk := Some(s), attempts := h.attempts + [Attempted(h.disk.value, outcome)]), outcome)
  }

  /** recover(): what escapes from it is the second component. */
  function Recover(h: Helper, error: Error, repair: Repair): (Helper, Option<Error>) {
    if error != CORRUPT then (h, Some(error))
    else
      match repair
      case CannotRemove(e) => (h.(isOpen := false), Some(e))
      case CannotOpen(e) => (h.(isOpen := false, disk := None), Some(e))
      case Repaired => (h.(isOpen := true, disk := Some(InitCache(None, h.size, {}))), None)
  }

  function Call(h: Helper, op: StoreOp, fate: Fate, repair: Repair, retryFate: Fate): (Helper, Outcome)
    requires h.isOpen && h.disk.Some?
  {
    var (tried, outcome) := Try(h, op, fate);
    if outcome.Ok? then (tried, outcome)
    else
      var (recovered, failure) := Recover(tried, outcome.error, repair);
      if failure.Some? then (recovered, Err(failure.value)) else Try(recovered, op, retryFate)
  }

  /** The runs that a call has added. */
  function Added(h: Helper, after: Helper): seq<Attempted>
    requires |h.attempts| <= |after.attempts|
  {
    after.attempts[|h.attempts|..]
  }

  /**
    Only a corrupt database is wiped: after any other result of the first attempt, that result
    is the caller's, it was the only attempt, and every entry that it did not itself lose is there.
   */
  lemma OtherErrorsPropagate(h: Helper, op: StoreOp, fate: Fate, repair: Repair, retryFate: Fate)
    requires h.isOpen && h.disk.Some?
    requires fate.Works? || fate.error != SystemError(666)
    ensures var (after, outcome) := Call(h, op, fate, repair, retryFate);
            && |h.attempts| <= |after.attempts| && Added(h, after) == [Attempted(h.disk.value, outcome)]
            && after.isOpen && after.disk.Some?
            && (fate.Throws? ==> outcome == Err(fate.error) && after.disk.value.entries == h.disk.value.entries - fate.lost)
            && (fate.Works? ==> outcome == Ok(Perform(h.disk.value, op).1))
  {
  }

  /** After a successful recovery, the outcome is that of the operation on an empty cache of the configured size. */
  lemma RecoveredIsFresh(h: Helper, op: StoreOp, fate: Fate, retryFate: Fate)
    requires h.isOpen && h.disk.Some? && fate.Throws? && fate.error == SystemError(666)
    ensures var (after, outcome) := Call(h, op, fate, Repaired, retryFate);
            && |h.attempts| <= |after.attempts|
            && Added(h, after) == [Attempted(h.disk.value, Err(CORRUPT)), Attempted(Empty(h.size), outcome)]
            && after.isOpen
            && (after.disk, outcome) == (Some(Attempt(Empty(h.size), op, retryFate).0), Attempt(Empty(h.size), op, retryFate).1)
            && (retryFate.Works? && op.Get? ==> outcome == Ok(Absent))
            && (retryFate.Works? && op.Put? && |op.key| + |op.value| <= h.size ==>
                  op.key in after.disk.value.entries && after.disk.value.entries[op.key] == op.value)
  {
  }

  /**
    If the corrupt database cannot be replaced, there is no second attempt, the helper is left
    without a database, and the caller is told why that failed instead of what went wrong first:
    the files are still there if they could not be removed, and gone if only opening failed.
   */
  lemma FailedRecovery(h: Helper, op: StoreOp, fate: Fate, repair: Repair, retryFate: Fate)
    requires h.isOpen && h.disk.Some? && fate.Throws? && fate.error == SystemError(666) && !repair.Repaired?
    ensures var (after, outcome) := Call(h, op, fate, repair, retryFate);
            && outcome == Err(repair.error) && !after.isOpen && after.size == h.size
            && |after.attempts| == |h.attempts| + 1
            && (repair.CannotOpen? <==> after.disk == None)
            && (repair.CannotRemove? ==>
                  after.disk.Some? && after.disk.value.entries == h.disk.value.entries - fate.lost)
  {
  }

  /**
    An operation runs once or twice, twice exactly if the first run found the database corrupt
    and it could be replaced, and the second run is on an empty cache. The caller is given the
    outcome of the last run, unless the recovery failed.
   */
  lemma AtMostTwice(h: Helper, op: StoreOp, fate: Fate, repair: Repair, retryFate: Fate)
    requires h.isOpen && h.disk.Some? && h.disk.value.maxSize == h.size
    ensures var (after, outcome) := Call(h, op, fate, repair, retryFate);
            && h.attempts <= after.attempts
            && var added := Added(h, after);
               && 1 <= |added| <= 2
               && added[0].before == h.disk.value
               && (|added| == 2 <==> added[0].outcome == Err(CORRUPT) && repair.Repaired?)
               && (|added| == 2 ==> added[1].before == Empty(h.size))
               && (if added[0].outcome == Err(CORRUPT) && !repair.Repaired? then outcome == Err(repair.error)
                   else outcome == added[|added| - 1].outcome)
               && (after.isOpen <==> !(added[0].outcome == Err(CORRUPT) && !repair.Repaired?))
               && (after.isOpen ==> after.disk.Some? && after.disk.value.maxSize == h.size)
  {
    var after := Call(h, op, fate, repair, retryFate).0;
    assert Added(h, after)[0] == after.attempts[|h.attempts|];
  }

  // ---- Runs ----

  datatype Step = Step(op: StoreOp, fate: Fate, repair: Repair, retryFate: Fate)

  /** The last value that each key was successfully given. */
  datatype World = World(helper: Helper, latest: map<string, string>)

  function NewWorld(size: nat): World {
    World(Helper(Some(Empty(size)), true, size, []), map[])
  }

  ghost predicate Usable(w: World) {
    w.helper.isOpen && w.helper.disk.Some? && w.helper.disk.value.maxSize == w.helper.size
  }

  function Next(w: World, step: Step): (World, Outcome)
    requires w.helper.isOpen && w.helper.disk.Some?
  {
    var (after, outcome) := Call(w.helper, step.op, step.fate, step.repair, step.retryFate);
    (World(after, if step.op.Put? && outcome == Ok(Stored(true)) then w.latest[step.op.key := step.op.value] else w.latest),
     outcome)
  }

  /** Whatever the cache holds is the last value put, and within the limit. */
  ghost predicate Coherent(w: World) {
    Usable(w) && forall k :: k in w.helper.disk.value.entries ==>
      && k in w.latest && w.helper.disk.value.entries[k] == w.latest[k]
      && |k| + |w.latest[k]| <= w.helper.size
  }

  lemma NextKeepsCoherent(w: World, step: Step)
    requires Coherent(w) && Next(w, step).0.helper.isOpen
    ensures Coherent(Next(w, step).0) && Next(w, step).0.helper.size == w.helper.size
  {
  }

  /** The run stays usable: no step ends in a failed recovery. */
  ghost predicate Survives(w: World, steps: seq<Step>)
    decreases |steps|
  {
    && w.helper.isOpen && w.helper.disk.Some?
    && (steps != [] ==> Survives(Next(w, steps[0]).0, steps[1..]))
  }

  function Run(w: World, steps: seq<Step>): World
    requires Survives(w, steps)
    decreases |steps|
  {
    if steps == [] then w else Run(Next(w, steps[0]).0, steps[1..])
  }

  lemma {:induction false} RunKeepsCoherent(w: World, steps: seq<Step>)
    requires Coherent(w) && Survives(w, steps)
    ensures Coherent(Run(w, steps))
    decreases |steps|
  {
    hide Next;
    if steps != [] {
      NextKeepsCoherent(w, steps[0]);
      RunKeepsCoherent(Next(w, steps[0]).0, steps[1..]);
    }
  }

  /**
    Corruption, recovery, eviction and failures can lose entries but never make one up or bring
    one back: in any run, a value that is found is the last one that was stored for the key.
   */
  lemma NeverStale(size: nat, steps: seq<Step>, key: string, fate: Fate, repair: Repair, retryFate: Fate)
    requires Survives(NewWorld(size), steps)
    ensures var w := Run(NewWorld(size), steps);
            && Usable(w)
            && match Next(w, Step(Get(key), fate, repair, retryFate)).1
               case Ok(Found(value)) => key in w.latest && w.latest[key] == value
               case _ => true
  {
    RunKeepsCoherent(NewWorld(size), steps);
    hide Run;
  }

  // ---- What is not lost ----

  /** Whether a key has an entry after an attempt. */
  predicate HeldAfter(held: bool, op: StoreOp, fate: Fate, size: nat, key: string) {
    match fate
    case Works(evicted) =>
      (op.Put? && op.key == key && |key| + |op.value| <= size) || (held && !op.Invalidate? && key !in evicted)
    case Throws(_, lost) => held && key !in lost
  }

  /** Whether it has one after a step; a recovery starts from nothing. */
  predicate HeldAfterStep(held: bool, step: Step, size: nat, key: string) {
    if step.fate.Throws? && step.fate.error == CORRUPT then HeldAfter(false, step.op, step.retryFate, size, key)
    else HeldAfter(held, step.op, step.fate, size, key)
  }

  predicate HeldAfterRun(held: bool, steps: seq<Step>, size: nat, key: string)
    decreases |steps|
  {
    if steps == [] then held else HeldAfterRun(HeldAfterStep(held, steps[0], size, key), steps[1..], size, key)
  }

  lemma AttemptHolds(s: Store, op: StoreOp, fate: Fate, key: string)
    ensures key in Attempt(s, op, fate).0.entries <==> HeldAfter(key in s.entries, op, fate, s.maxSize, key)
  {
  }

  lemma StepHolds(w: World, step: Step, key: string)
    requires Usable(w) && Next(w, step).0.helper.isOpen
    ensures Usable(Next(w, step).0) && Next(w, step).0.helper.size == w.helper.size
    ensures key in Next(w, step).0.helper.disk.value.entries <==>
              HeldAfterStep(key in w.helper.disk.value.entries, step, w.helper.size, key)
  {
    AttemptHolds(w.helper.disk.value, step.op, step.fate, key);
    AttemptHolds(Empty(w.helper.size), step.op, step.retryFate, key);
  }

  lemma {:induction false} RunHolds(w: World, steps: seq<Step>, key: string)
    requires Usable(w) && Survives(w, steps)
    ensures Usable(Run(w, steps)) && Run(w, steps).helper.size == w.helper.size
    ensures key in Run(w, steps).helper.disk.value.entries <==>
              HeldAfterRun(key in w.helper.disk.value.entries, steps, w.helper.size, key)
    decreases |steps|
  {
    hide Next, HeldAfterStep;
    if steps != [] {
      assert Survives(Next(w, steps[0]).0, steps[1..]);
      StepHolds(w, steps[0], key);
      RunHolds(Next(w, steps[0]).0, steps[1..], key);
    }
  }

  /**
    A call to get() finds a value exactly if the steps so far, in which only those that concern
    the key or meet a corrupt database matter, have left it there; and then the last one stored.
   */
  lemma FoundIff(size: nat, steps: seq<Step>, key: string, evicted: set<string>, repair: Repair, retryFate: Fate)
    requires Survives(NewWorld(size), steps)
    ensures var w := Run(NewWorld(size), steps);
            && Usable(w)
            && var outcome := Next(w, Step(Get(key), Works(evicted), repair, retryFate)).1;
               if HeldAfterRun(false, steps, size, key) then key in w.latest && outcome == Ok(Found(w.latest[key]))
               else outcome == Ok(Absent)
  {
    RunHolds(NewWorld(size), steps, key);
    RunKeepsCoherent(NewWorld(size), steps);
    hide Run;
  }

  /** The step does not put the key, evict it, lose it, invalidate the cache or find it corrupt. */
  predicate Spares(step: Step, key: string) {
    && !step.op.Invalidate? && !(step.op.Put? && step.op.key == key)
    && match step.fate
       case Works(evicted) => key !in evicted
       case Throws(error, lost) => error != CORRUPT && key !in lost
  }

  /** A value that is stored stays, through failures of any other kind, until something is done to it. */
  lemma {:induction false} Retained(w: World, steps: seq<Step>, key: string, value: string)
    requires Usable(w) && Survives(w, steps)
    requires key in w.helper.disk.value.entries && w.helper.disk.value.entries[key] == value
    requires forall i :: 0 <= i < |steps| ==> Spares(steps[i], key)
    ensures Usable(Run(w, steps))
    ensures var entries := Run(w, steps).helper.disk.value.entries; key in entries && entries[key] == value
    decreases |steps|
  {
    if steps != [] {
      assert Spares(steps[0], key);
      SparedStays(w, steps[0], key);
      hide Next, Spares;
      Retained(Next(w, steps[0]).0, steps[1..], key, value);
    }
  }

  lemma SparedStays(w: World, step: Step, key: string)
    requires Usable(w) && Spares(step, key) && key in w.helper.disk.value.entries
    ensures Usable(Next(w, step).0)
    ensures var entries := Next(w, step).0.helper.disk.value.entries;
            key in entries && entries[key] == w.helper.disk.value.entries[key]
  {
  }
}
