/**
  The rate limiter of src/ratelimiter.cpp.

  A job is named by a number; the name stands for the shared pointer that the
  limiter wraps around each queued function, so two queued jobs never share a name.
  `Limiter` is the limiter as a value, with one function per operation; the class
  `RateLimiterObject.RateLimiter` performs the same operations in place.
 */
module RateLimiting {
  import opened Common

  /** A queue entry; `live` is false once a cancel function has cleared it. */
  datatype Entry = Entry(job: nat, live: bool)

  datatype Limiter = Limiter(concurrency: nat, running: nat, queue: seq<Entry>)

  function Jobs(q: seq<Entry>): set<nat> {
    set e | e in q :: e.job
  }

  /** The jobs that are still waiting to run. */
  function Waiting(q: seq<Entry>): set<nat> {
    set e | e in q && e.live :: e.job
  }

  /** The jobs that are still waiting to run, oldest first. */
  function LiveJobs(q: seq<Entry>): seq<nat> {
    if q == [] then []
    else
      var last := q[|q| - 1];
      LiveJobs(q[..|q| - 1]) + (if last.live then [last.job] else [])
  }

  ghost predicate Distinct(q: seq<Entry>) {
    forall i, j :: 0 <= i < j < |q| ==> q[i].job != q[j].job
  }

  /** Work conservation is part of being valid: a job waits only while the limiter is full. */
  ghost predicate Valid(l: Limiter) {
    && l.concurrency > 0
    && Distinct(l.queue)
    && (l.queue != [] ==> l.running >= l.concurrency)
  }

  datatype Taken = Taken(rest: seq<Entry>, job: Option<nat>)

  /** What the search loop of `done` leaves behind and finds, from the back of the queue. */
  function TakeLive(q: seq<Entry>): Taken {
    if q == [] then Taken([], None)
    else
      var last := q[|q| - 1];
      if last.live then Taken(q[..|q| - 1], Some(last.job)) else TakeLive(q[..|q| - 1])
  }

  function Schedule(l: Limiter, job: nat): Limiter {
    if l.running < l.concurrency then l.(running := l.running + 1)
    else l.(queue := l.queue + [Entry(job, true)])
  }

  /** Whether `schedule` runs the job at once instead of queueing it. */
  predicate StartsNow(l: Limiter) {
    l.running < l.concurrency
  }

  function ScheduleNow(l: Limiter): Limiter {
    l.(running := l.running + 1)
  }

  function Clear(q: seq<Entry>, job: nat): (c: seq<Entry>)
    ensures |c| == |q|
  {
    if q == [] then []
    else
      var last := q[|q| - 1];
      Clear(q[..|q| - 1], job) + [if last.job == job then last.(live := false) else last]
  }

  /** The effect of the cancel function of `job`. It returns true iff `job in Jobs(l.queue)`. */
  function Cancel(l: Limiter, job: nat): Limiter {
    l.(queue := Clear(l.queue, job))
  }

  function DoneStarts(l: Limiter): Option<nat> {
    TakeLive(l.queue).job
  }

  function Done(l: Limiter): Limiter
    requires l.running > 0
  {
    var t := TakeLive(l.queue);
    Limiter(l.concurrency, if t.job.Some? then l.running else l.running - 1, t.rest)
  }

  // ---- Facts about single operations ----

  lemma {:induction false} LiveJobsAre(q: seq<Entry>)
    ensures forall j :: j in LiveJobs(q) <==> Entry(j, true) in q
  {
    if q != [] {
      LiveJobsAre(q[..|q| - 1]);
      assert q == q[..|q| - 1] + [q[|q| - 1]];
    }
  }

  /**
    The queue is last-in first-out: what `done` starts is the newest live job, everything
    behind it in the queue had been cleared and is dropped, and everything before it stays.
   */
  lemma {:induction false} TakeLiveTakesNewest(q: seq<Entry>)
    ensures var t := TakeLive(q);
            match t.job
            case None => t.rest == [] && LiveJobs(q) == []
            case Some(j) =>
              && |t.rest| < |q|
              && t.rest == q[..|t.rest|]
              && q[|t.rest|] == Entry(j, true)
              && (forall i :: |t.rest| < i < |q| ==> !q[i].live)
              && LiveJobs(q) == LiveJobs(t.rest) + [j]
  {
    if q != [] && !q[|q| - 1].live {
      TakeLiveTakesNewest(q[..|q| - 1]);
    }
  }

  lemma {:induction false} ClearAt(q: seq<Entry>, job: nat, i: nat)
    requires i < |q|
    ensures Clear(q, job)[i] == if q[i].job == job then q[i].(live := false) else q[i]
  {
    if i < |q| - 1 {
      ClearAt(q[..|q| - 1], job, i);
    }
  }

  lemma ClearFrame(q: seq<Entry>, job: nat)
    ensures Jobs(Clear(q, job)) == Jobs(q)
    ensures Distinct(q) ==> Distinct(Clear(q, job))
    ensures forall j: nat, v: bool :: Entry(j, v) in Clear(q, job) <==>
              (if j == job then !v && job in Jobs(q) else Entry(j, v) in q)
  {
    var c := Clear(q, job);
    forall i | 0 <= i < |q|
      ensures c[i] == if q[i].job == job then q[i].(live := false) else q[i]
    {
      ClearAt(q, job, i);
    }
    forall j | j in Jobs(q)
      ensures j in Jobs(c)
    {
      var i :| 0 <= i < |q| && q[i].job == j;
      assert c[i] in c;
    }
    forall j: nat, v: bool | (if j == job then !v && job in Jobs(q) else Entry(j, v) in q)
      ensures Entry(j, v) in c
    {
      var i :| 0 <= i < |q| && q[i].job == j && (j != job ==> q[i].live == v);
      assert c[i] == Entry(j, v);
    }
  }

  lemma {:induction false} ClearLive(q: seq<Entry>, job: nat)
    requires Distinct(q)
    ensures multiset(LiveJobs(Clear(q, job))) == multiset(LiveJobs(q)) - Removed(q, job)
  {
    if q != [] {
      var front, last := q[..|q| - 1], q[|q| - 1];
      assert q == front + [last];
      ClearLive(front, job);
      RemovedSnoc(front, last, job);
      RemovedIsLive(front, job);
      ClearLiveStep(front, last, job);
    }
  }

  lemma ClearLiveStep(front: seq<Entry>, last: Entry, job: nat)
    requires multiset(LiveJobs(Clear(front, job))) == multiset(LiveJobs(front)) - Removed(front, job)
    requires Removed(front, job) <= multiset(LiveJobs(front))
    requires Removed(front + [last], job) == if last == Entry(job, true) then multiset{job} else Removed(front, job)
    requires last.job == job ==> Removed(front, job) == multiset{}
    ensures multiset(LiveJobs(Clear(front + [last], job))) ==
            multiset(LiveJobs(front + [last])) - Removed(front + [last], job)
  {
    var cleared := if last.job == job then last.(live := false) else last;
    LiveJobsSnoc(front, last);
    assert (front + [last])[..|front|] == front;
    LiveJobsSnoc(Clear(front, job), cleared);
  }

  lemma RemovedSnoc(q: seq<Entry>, e: Entry, job: nat)
    requires Distinct(q + [e])
    ensures Removed(q + [e], job) == if e == Entry(job, true) then multiset{job} else Removed(q, job)
    ensures e.job == job ==> Removed(q, job) == multiset{}
  {
    forall i | 0 <= i < |q|
      ensures q[i].job != e.job
    {
      assert (q + [e])[i] == q[i] && (q + [e])[|q|] == e;
    }
  }

  lemma RemovedIsLive(q: seq<Entry>, job: nat)
    ensures Removed(q, job) <= multiset(LiveJobs(q))
  {
    LiveJobsAre(q);
    if Entry(job, true) in q {
      assert job in LiveJobs(q);
    }
  }

  /** What a cancel takes out of the waiting jobs. */
  ghost function Removed(q: seq<Entry>, job: nat): multiset<nat> {
    if Entry(job, true) in q then multiset{job} else multiset{}
  }

  lemma {:induction false} LiveJobsSnoc(q: seq<Entry>, e: Entry)
    ensures LiveJobs(q + [e]) == LiveJobs(q) + (if e.live then [e.job] else [])
  {
    assert (q + [e])[..|q|] == q;
  }

  /** Every operation keeps the limiter valid; scheduling needs a name not in the queue. */
  lemma ScheduleValid(l: Limiter, job: nat)
    requires Valid(l) && job !in Jobs(l.queue)
    ensures Valid(Schedule(l, job))
    ensures |LiveJobs(Schedule(l, job).queue)| + Schedule(l, job).running == |LiveJobs(l.queue)| + l.running + 1
  {
    LiveJobsSnoc(l.queue, Entry(job, true));
    forall i | 0 <= i < |l.queue|
      ensures l.queue[i].job != job
    {
      assert l.queue[i] in l.queue;
    }
  }

  lemma CancelValid(l: Limiter, job: nat)
    requires Valid(l)
    ensures Valid(Cancel(l, job))
  {
    ClearFrame(l.queue, job);
  }

  lemma DoneValid(l: Limiter)
    requires Valid(l) && l.running > 0
    ensures Valid(Done(l))
    ensures Done(l).running + |LiveJobs(Done(l).queue)| == l.running + |LiveJobs(l.queue)| - 1
    ensures Jobs(Done(l).queue) <= Jobs(l.queue)
    ensures DoneStarts(l).Some? ==> DoneStarts(l).value !in Jobs(Done(l).queue)
    ensures forall e :: e in Done(l).queue ==> e in l.queue
    ensures forall j: nat :: Entry(j, true) in l.queue <==> Entry(j, true) in Done(l).queue || DoneStarts(l) == Some(j)
  {
    TakeLiveTakesNewest(l.queue);
    var t := TakeLive(l.queue);
    LiveJobsAre(l.queue);
    LiveJobsAre(t.rest);
    if t.job.Some? {
      var n := |t.rest|;
      forall e | e in t.rest
        ensures e.job != t.job.value && e in l.queue
      {
        var i :| 0 <= i < n && t.rest[i] == e;
        assert l.queue[i].job != l.queue[n].job;
      }
    }
  }

  // ---- The queue as two sets ----

  lemma WaitingAre(q: seq<Entry>)
    ensures forall j: nat :: j in Waiting(q) <==> Entry(j, true) in q
    ensures Waiting(q) <= Jobs(q)
  {
  }

  lemma ScheduleSets(l: Limiter, job: nat)
    requires Valid(l) && job !in Jobs(l.queue)
    ensures var l' := Schedule(l, job);
            && Valid(l')
            && Jobs(l'.queue) == Jobs(l.queue) + (if StartsNow(l) then {} else {job})
            && Waiting(l'.queue) == Waiting(l.queue) + (if StartsNow(l) then {} else {job})
  {
    ScheduleValid(l, job);
    var q, e := l.queue, Entry(job, true);
    assert e in q + [e];
    assert forall x :: x in q + [e] <==> x in q || x == e;
    assert Jobs(q + [e]) == Jobs(q) + {job};
    assert Waiting(q + [e]) == Waiting(q) + {job};
  }

  lemma CancelSets(l: Limiter, job: nat)
    requires Valid(l)
    ensures var l' := Cancel(l, job);
            && Valid(l')
            && Jobs(l'.queue) == Jobs(l.queue)
            && Waiting(l'.queue) == Waiting(l.queue) - {job}
  {
    CancelValid(l, job);
    ClearFrame(l.queue, job);
    WaitingAre(l.queue);
    WaitingAre(Clear(l.queue, job));
  }

  lemma DoneSets(l: Limiter)
    requires Valid(l) && l.running > 0
    ensures var l' := Done(l);
            && Valid(l')
            && Jobs(l'.queue) <= Jobs(l.queue)
            && match DoneStarts(l)
               case None => l'.running == l.running - 1 && Waiting(l.queue) == {} == Waiting(l'.queue)
               case Some(j) => && l'.running == l.running && j in Waiting(l.queue)
                               && j !in Jobs(l'.queue) && Waiting(l'.queue) == Waiting(l.queue) - {j}
  {
    DoneValid(l);
    TakeLiveTakesNewest(l.queue);
    WaitingAre(l.queue);
    WaitingAre(Done(l).queue);
  }

  // ---- Draining ----

  /** The limiter after `n` calls to `done`. */
  function DoneTimes(l: Limiter, n: nat): Limiter
    requires Valid(l) && n <= l.running + |LiveJobs(l.queue)|
    decreases n
  {
    if n == 0 then l else
    DoneIsPossible(l);
    DoneValid(l);
    DoneTimes(Done(l), n - 1)
  }

  /** The jobs that those calls start, in order. */
  function StartedBy(l: Limiter, n: nat): seq<nat>
    requires Valid(l) && n <= l.running + |LiveJobs(l.queue)|
    decreases n
  {
    if n == 0 then [] else
    DoneIsPossible(l);
    DoneValid(l);
    (if DoneStarts(l).Some? then [DoneStarts(l).value] else []) + StartedBy(Done(l), n - 1)
  }

  lemma DoneIsPossible(l: Limiter)
    requires Valid(l) && 0 < l.running + |LiveJobs(l.queue)|
    ensures l.running > 0
  {
  }

  /**
    With no further scheduling, one call to `done` per running or waiting job empties the
    limiter. Each live job is started exactly once, newest first, and no cleared job ever.
   */
  lemma {:induction false} Drain(l: Limiter)
    requires Valid(l)
    ensures var n := l.running + |LiveJobs(l.queue)|;
            && DoneTimes(l, n) == Limiter(l.concurrency, 0, [])
            && StartedBy(l, n) == Reverse(LiveJobs(l.queue))
    decreases l.running + |LiveJobs(l.queue)|
  {
    if l.running + |LiveJobs(l.queue)| > 0 {
      DoneIsPossible(l);
      DoneValid(l);
      Drain(Done(l));
      TakeLiveTakesNewest(l.queue);
      if DoneStarts(l).Some? {
        ReverseSnoc(LiveJobs(Done(l).queue), DoneStarts(l).value);
      }
    }
  }

  // ---- Whole runs ----

  datatype Op =
    | OpSchedule(job: nat)
    | OpScheduleNow(job: nat)
    | OpCancel(job: nat)
    | OpDone

  /** A limiter together with what has been done with it so far. */
  datatype World = World(
    limiter: Limiter,
    scheduled: multiset<nat>,   // jobs handed to schedule or schedule_now
    started: multiset<nat>,     // jobs the limiter has run
    cancelled: multiset<nat>,   // jobs taken out by a first successful cancel
    dones: nat)

  function NewWorld(concurrency: nat): World {
    World(Limiter(concurrency, 0, []), multiset{}, multiset{}, multiset{}, 0)
  }

  /** `done` is called only for a running job; a queued name is not scheduled again. */
  predicate OpAllowed(w: World, op: Op) {
    match op
    case OpSchedule(job) => job !in Jobs(w.limiter.queue)
    case OpScheduleNow(job) => true
    case OpCancel(job) => true
    case OpDone => w.limiter.running > 0
  }

  function Apply(w: World, op: Op): World
    requires OpAllowed(w, op)
  {
    match op
    case OpSchedule(job) =>
      w.(limiter := Schedule(w.limiter, job),
         scheduled := w.scheduled + multiset{job},
         started := if StartsNow(w.limiter) then w.started + multiset{job} else w.started)
    case OpScheduleNow(job) =>
      w.(limiter := ScheduleNow(w.limiter),
         scheduled := w.scheduled + multiset{job},
         started := w.started + multiset{job})
    case OpCancel(job) =>
      w.(limiter := Cancel(w.limiter, job),
         cancelled := if Entry(job, true) in w.limiter.queue then w.cancelled + multiset{job} else w.cancelled)
    case OpDone =>
      w.(limiter := Done(w.limiter),
         started := match DoneStarts(w.limiter) case Some(j) => w.started + multiset{j} case None => w.started,
         dones := w.dones + 1)
  }

  ghost predicate RunAllowed(w: World, ops: seq<Op>)
    decreases |ops|
  {
    ops == [] || (OpAllowed(w, ops[0]) && RunAllowed(Apply(w, ops[0]), ops[1..]))
  }

  function Run(w: World, ops: seq<Op>): World
    requires RunAllowed(w, ops)
    decreases |ops|
  {
    if ops == [] then w else Run(Apply(w, ops[0]), ops[1..])
  }

  /** Every job is accounted for, and the running count is what was started and not yet done. */
  ghost predicate Balanced(w: World) {
    && Valid(w.limiter)
    && w.scheduled == w.started + w.cancelled + multiset(LiveJobs(w.limiter.queue))
    && |w.started| == w.dones + w.limiter.running
  }

  lemma ApplyBalanced(w: World, op: Op)
    requires Balanced(w) && OpAllowed(w, op)
    ensures Balanced(Apply(w, op))
  {
    match op
    case OpSchedule(job) => ScheduleBalanced(w, job);
    case OpScheduleNow(job) =>
    case OpCancel(job) => CancelBalanced(w, job);
    case OpDone => DoneBalanced(w);
  }

  lemma ScheduleBalanced(w: World, job: nat)
    requires Balanced(w) && OpAllowed(w, OpSchedule(job))
    ensures Balanced(Apply(w, OpSchedule(job)))
  {
    ScheduleValid(w.limiter, job);
    LiveJobsSnoc(w.limiter.queue, Entry(job, true));
  }

  lemma CancelBalanced(w: World, job: nat)
    requires Balanced(w)
    ensures Balanced(Apply(w, OpCancel(job)))
  {
    var q := w.limiter.queue;
    CancelValid(w.limiter, job);
    ClearLive(q, job);
    RemovedIsLive(q, job);
    var w' := Apply(w, OpCancel(job));
    assert w'.cancelled == w.cancelled + Removed(q, job);
  }

  lemma DoneBalanced(w: World)
    requires Balanced(w) && OpAllowed(w, OpDone)
    ensures Balanced(Apply(w, OpDone))
  {
    DoneValid(w.limiter);
    TakeLiveTakesNewest(w.limiter.queue);
    if DoneStarts(w.limiter).Some? {
      var j := DoneStarts(w.limiter).value;
      var rest := LiveJobs(Done(w.limiter).queue);
      assert multiset(rest + [j]) == multiset(rest) + multiset{j};
    }
  }

  lemma {:induction false} RunBalanced(w: World, ops: seq<Op>)
    requires Balanced(w) && RunAllowed(w, ops)
    ensures Balanced(Run(w, ops))
    decreases |ops|
  {
    if ops != [] {
      ApplyBalanced(w, ops[0]);
      RunBalanced(Apply(w, ops[0]), ops[1..]);
    }
  }

  /**
    Conservation over every run: jobs scheduled, minus jobs cancelled while waiting, minus
    calls to `done`, is what is running plus what still waits; each scheduled job has been
    started, cancelled or is waiting, and no two of these; a queue forms only when full.
   */
  lemma Conservation(concurrency: nat, ops: seq<Op>)
    requires concurrency > 0 && RunAllowed(NewWorld(concurrency), ops)
    ensures var w := Run(NewWorld(concurrency), ops);
            && |w.scheduled| - |w.cancelled| - w.dones == w.limiter.running + |LiveJobs(w.limiter.queue)|
            && w.scheduled == w.started + w.cancelled + multiset(LiveJobs(w.limiter.queue))
            && (w.limiter.queue != [] ==> w.limiter.running >= w.limiter.concurrency)
  {
    RunBalanced(NewWorld(concurrency), ops);
    var w := Run(NewWorld(concurrency), ops);
    assert |w.scheduled| == |w.started| + |w.cancelled| + |multiset(LiveJobs(w.limiter.queue))|;
  }

  predicate Mentions(op: Op, job: nat) {
    op == OpSchedule(job) || op == OpScheduleNow(job)
  }

  /** Once cancelled (or finished), a job is not started again unless someone schedules it again. */
  lemma {:induction false} CancelledNeverStarts(w: World, ops: seq<Op>, job: nat)
    requires Balanced(w) && RunAllowed(w, ops)
    requires Entry(job, true) !in w.limiter.queue
    requires forall op :: op in ops ==> !Mentions(op, job)
    ensures Run(w, ops).started[job] == w.started[job]
    decreases |ops|
  {
    if ops != [] {
      var op := ops[0];
      var w' := Apply(w, op);
      ApplyBalanced(w, op);
      assert !Mentions(op, job);
      if op.OpCancel? {
        ClearFrame(w.limiter.queue, op.job);
      } else if op.OpDone? {
        DoneValid(w.limiter);
      }
      forall o | o in ops[1..]
        ensures !Mentions(o, job)
      {
        assert o in ops;
      }
      CancelledNeverStarts(w', ops[1..], job);
    }
  }

  function Bypasses(ops: seq<Op>): nat {
    if ops == [] then 0 else (if ops[0].OpScheduleNow? then 1 else 0) + Bypasses(ops[1..])
  }

  /** The concurrency limit can be exceeded only by `schedule_now`, by one for each call. */
  lemma {:induction false} Overshoot(w: World, ops: seq<Op>)
    requires Balanced(w) && RunAllowed(w, ops)
    ensures Run(w, ops).limiter.concurrency == w.limiter.concurrency
    ensures Run(w, ops).limiter.running <= Max(w.limiter.running, w.limiter.concurrency) + Bypasses(ops)
    decreases |ops|
  {
    if ops != [] {
      ApplyBalanced(w, ops[0]);
      Overshoot(Apply(w, ops[0]), ops[1..]);
    }
  }

  /** done() lowers the number of running jobs exactly when no live job waits. */
  lemma DoneLowers(l: Limiter)
    requires Valid(l) && l.running > 0
    ensures Done(l).running == l.running - (if LiveJobs(l.queue) == [] then 1 else 0)
  {
    TakeLiveTakesNewest(l.queue);
  }

  /** Exactly when an operation leaves no more jobs running than the limit allows. */
  predicate KeepsLimit(l: Limiter, op: Op) {
    match op
    case OpScheduleNow(_) => l.running < l.concurrency
    case OpDone => l.running <= l.concurrency || (l.running == l.concurrency + 1 && LiveJobs(l.queue) == [])
    case _ => l.running <= l.concurrency
  }

  lemma WithinLimitIff(w: World, op: Op)
    requires Balanced(w) && OpAllowed(w, op)
    ensures Apply(w, op).limiter.running <= w.limiter.concurrency <==> KeepsLimit(w.limiter, op)
  {
    if op.OpDone? {
      DoneLowers(w.limiter);
    }
  }

  /** The jobs that start without waiting in the run. */
  function Starts(w: World, ops: seq<Op>): nat
    requires RunAllowed(w, ops)
    decreases |ops|
  {
    if ops == [] then 0
    else
      (if ops[0].OpScheduleNow? || (ops[0].OpSchedule? && StartsNow(w.limiter)) then 1 else 0)
      + Starts(Apply(w, ops[0]), ops[1..])
  }

  /** The calls to done() in the run that find no live job. */
  function IdleDones(w: World, ops: seq<Op>): nat
    requires RunAllowed(w, ops)
    decreases |ops|
  {
    if ops == [] then 0
    else
      (if ops[0].OpDone? && LiveJobs(w.limiter.queue) == [] then 1 else 0)
      + IdleDones(Apply(w, ops[0]), ops[1..])
  }

  /**
    Over every run, the number of running jobs is raised by exactly the jobs that start without
    waiting and lowered by exactly the calls to done() that find no live job.
   */
  lemma {:induction false} RunningBalance(w: World, ops: seq<Op>)
    requires Balanced(w) && RunAllowed(w, ops)
    ensures Run(w, ops).limiter.running == w.limiter.running + Starts(w, ops) - IdleDones(w, ops)
    decreases |ops|
  {
    if ops != [] {
      ApplyBalanced(w, ops[0]);
      if ops[0].OpDone? {
        DoneLowers(w.limiter);
      }
      RunningBalance(Apply(w, ops[0]), ops[1..]);
    }
  }

  /**
    An excess over the limit lasts while jobs wait: it goes down only by calls to done() that
    find no live job, one for each, whichever jobs those calls are for.
   */
  lemma ExcessLasts(w: World, ops: seq<Op>)
    requires Balanced(w) && RunAllowed(w, ops)
    ensures Run(w, ops).limiter.running >= w.limiter.running - IdleDones(w, ops)
    ensures Run(w, ops).limiter.running <= w.limiter.concurrency <==>
              w.limiter.running - w.limiter.concurrency <= IdleDones(w, ops) - Starts(w, ops)
  {
    RunningBalance(w, ops);
  }

  /**
    The excess outlives the job that caused it: with a limit of one, a waiting job that is
    taken out and run at once leaves two others running after it has completed.
   */
  lemma OvershootPersists()
    ensures var ops := [OpSchedule(1), OpSchedule(2), OpSchedule(3), OpCancel(3), OpScheduleNow(3), OpDone];
            && RunAllowed(NewWorld(1), ops)
            && Run(NewWorld(1), ops).limiter == Limiter(1, 2, [])
            && Run(NewWorld(1), ops).started == multiset{1, 2, 3}
  {
    WitnessQueues();
    var w0 := NewWorld(1);
    var w1 := Apply(w0, OpSchedule(1));
    var w2 := Apply(w1, OpSchedule(2));
    var w3 := Apply(w2, OpSchedule(3));
    assert w3.limiter.queue == [Entry(2, true), Entry(3, true)];
    var w4 := Apply(w3, OpCancel(3));
    var w5 := Apply(w4, OpScheduleNow(3));
    RunCons(w5, OpDone, []);
    RunCons(w4, OpScheduleNow(3), [OpDone]);
    RunCons(w3, OpCancel(3), [OpScheduleNow(3), OpDone]);
    RunCons(w2, OpSchedule(3), [OpCancel(3), OpScheduleNow(3), OpDone]);
    RunCons(w1, OpSchedule(2), [OpSchedule(3), OpCancel(3), OpScheduleNow(3), OpDone]);
    RunCons(w0, OpSchedule(1), [OpSchedule(2), OpSchedule(3), OpCancel(3), OpScheduleNow(3), OpDone]);
  }

  lemma WitnessQueues()
    ensures Clear([Entry(2, true), Entry(3, true)], 3) == [Entry(2, true), Entry(3, false)]
    ensures TakeLive([Entry(2, true), Entry(3, false)]) == Taken([], Some(2))
  {
    ClearAt([Entry(2, true), Entry(3, true)], 3, 0);
    ClearAt([Entry(2, true), Entry(3, true)], 3, 1);
    assert [Entry(2, true), Entry(3, false)][..1] == [Entry(2, true)];
    assert [Entry(2, true)][..0] == [];
  }

  lemma RunCons(w: World, op: Op, rest: seq<Op>)
    requires OpAllowed(w, op) && RunAllowed(Apply(w, op), rest)
    ensures RunAllowed(w, [op] + rest) && Run(w, [op] + rest) == Run(Apply(w, op), rest)
  {
    assert ([op] + rest)[1..] == rest;
  }
}
