/**
  The rate limiter as an object: its operations update the queue in place, on slots that
  are shared with the cancel functions handed out, and are proved against the functions
  of `RateLimiting`.
 */
module RateLimiterObject {
  import opened Common
  import opened RateLimiting

  /** The shared pointer to a queued function; the function is null once `live` is false. */
  class Slot {
    const job: nat
    var live: bool

    constructor (job: nat)
      ensures this.job == job && live
    {
      this.job := job;
      live := true;
    }
  }

  ghost function Entries(list: seq<Slot>): (q: seq<Entry>)
    reads list
  {
    seq(|list|, i requires 0 <= i < |list| reads list => Entry(list[i].job, list[i].live))
  }

  ghost predicate HasJob(list: seq<Slot>, job: nat) {
    exists slot :: slot in list && slot.job == job
  }

  lemma JobsAre(list: seq<Slot>, job: nat)
    ensures HasJob(list, job) <==> job in Jobs(Entries(list))
  {
    var q := Entries(list);
    if HasJob(list, job) {
      var i :| 0 <= i < |list| && list[i].job == job;
      assert q[i] in q;
    }
    if job in Jobs(q) {
      var i :| 0 <= i < |q| && q[i].job == job;
      assert list[i] in list;
    }
  }

  /** A cancel function's weak pointer; null stands for the function that only returns false. */
  ghost predicate Points(handle: Slot?, job: nat, list: seq<Slot>) {
    && (handle != null ==> handle.job == job)
    && ((handle != null && handle in list) <==> HasJob(list, job))
  }

  ghost predicate DistinctSlots(list: seq<Slot>) {
    forall i, j :: 0 <= i < j < |list| ==> list[i].job != list[j].job
  }

  lemma DistinctEntries(list: seq<Slot>)
    requires Distinct(Entries(list))
    ensures DistinctSlots(list)
  {
    forall i, j | 0 <= i < j < |list|
      ensures list[i].job != list[j].job
    {
      assert Entries(list)[i].job != Entries(list)[j].job;
    }
  }

  /** Dropping slots from the back leaves a weak pointer accurate. */
  lemma PointsShrunk(handle: Slot?, job: nat, list: seq<Slot>, n: nat)
    requires Points(handle, job, list) && DistinctSlots(list) && n <= |list|
    ensures Points(handle, job, list[..n])
  {
    if HasJob(list[..n], job) {
      var i :| 0 <= i < n && list[..n][i].job == job;
      assert list[i] in list;
      var k :| 0 <= k < |list| && list[k] == handle;
      assert list[..n][i] == handle;
    }
  }

  /** So does adding a slot for another job. */
  lemma PointsGrown(handle: Slot?, job: nat, list: seq<Slot>, added: Slot)
    requires Points(handle, job, list) && added.job != job
    ensures Points(handle, job, list + [added])
  {
    assert forall x :: x in list + [added] <==> x in list || x == added;
  }

  class RateLimiter {
    const concurrency: nat
    var running: nat
    var list: seq<Slot>

    ghost function State(): Limiter
      reads this, list
    {
      Limiter(concurrency, running, Entries(list))
    }

    constructor (concurrency: nat)
      requires concurrency > 0
      ensures State() == Limiter(concurrency, 0, []) && Valid(State())
    {
      this.concurrency := concurrency;
      running := 0;
      list := [];
    }

    /** Runs or queues the job; the job was run iff no handle is returned. */
    method Schedule(job: nat) returns (handle: Slot?)
      requires Valid(State()) && job !in Jobs(Entries(list))
      modifies this
      ensures State() == RateLimiting.Schedule(old(State()), job) && Valid(State())
      ensures handle == null <==> StartsNow(old(State()))
      ensures handle == null ==> list == old(list)
      ensures handle != null ==> fresh(handle) && list == old(list) + [handle]
      ensures Points(handle, job, list)
    {
      ScheduleValid(State(), job);
      JobsAre(list, job);
      if running < concurrency {
        handle := null;
        ScheduleNow();
      } else {
        handle := new Slot(job);
        list := list + [handle];
        assert Entries(list) == old(Entries(list)) + [Entry(job, true)];
      }
    }

    method ScheduleNow()
      modifies this`running
      ensures State() == RateLimiting.ScheduleNow(old(State()))
    {
      running := running + 1;
    }

    /** The cancel function returned by `Schedule`. */
    method CallCancel(handle: Slot?, ghost job: nat) returns (ok: bool)
      requires Valid(State()) && Points(handle, job, list)
      modifies if handle == null then {} else {handle}
      ensures State() == Cancel(old(State()), job) && Valid(State())
      ensures ok <==> job in old(Jobs(Entries(list)))
      ensures running == old(running) && list == old(list)
      ensures ok <==> handle != null && handle in list
    {
      CancelValid(State(), job);
      JobsAre(list, job);
      ClearFrame(Entries(list), job);
      ok := handle != null && handle in list;
      if ok {
        handle.live := false;
      }
      ghost var before := old(Entries(list));
      forall i | 0 <= i < |list|
        ensures Entries(list)[i] == Clear(before, job)[i]
      {
        ClearAt(before, job, i);
        if ok {
          var k :| 0 <= k < |list| && list[k] == handle;
          assert before[k].job == job;
        } else {
          assert before[i] in before;
        }
      }
      assert Entries(list) == Clear(before, job);
    }

    /** Starts the job it returns, if any. */
    method Done() returns (started: Option<nat>)
      requires Valid(State()) && running > 0
      modifies this
      ensures State() == RateLimiting.Done(old(State())) && Valid(State())
      ensures started == DoneStarts(old(State()))
      ensures |list| <= |old(list)| && list == old(list)[..|list|]
    {
      DoneValid(State());
      running := running - 1;
      started := None;
      while list != [] && started.None?
        invariant list <= old(list) && running == old(running) - 1
        invariant started.None? ==> TakeLive(Entries(list)) == TakeLive(old(Entries(list)))
        invariant started.Some? ==> TakeLive(old(Entries(list))) == Taken(Entries(list), started)
        decreases |list|
      {
        var slot := list[|list| - 1];
        ghost var before := Entries(list);
        list := list[..|list| - 1];
        assert Entries(list) == before[..|before| - 1];
        if slot.live {
          started := Some(slot.job);
        }
      }
      if started.Some? {
        ScheduleNow();
      }
    }
  }
}
