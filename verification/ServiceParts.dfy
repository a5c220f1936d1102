/**
  The handlers that wait for credentials, and the callbacks that will release them: what
  Handler::begin and CredentialsCache do together. `answered` are the callbacks being run.
 */
module CredentialWaits {
  import opened Common

  datatype Waits = Waits(
    peers: map<nat, nat>,           // the handlers waiting for credentials, with their peers
    pending: map<nat, seq<nat>>,    // the callbacks the cache holds, by peer
    answered: seq<nat>)             // the handlers whose callbacks are about to run

  const NO_WAITS := Waits(map[], map[], [])

  function Held(w: Waits, peer: nat): seq<nat> {
    if peer in w.pending then w.pending[peer] else []
  }

  function Ask(w: Waits, id: nat, peer: nat): Waits {
    w.(peers := w.peers[id := peer], pending := w.pending[peer := Held(w, peer) + [id]])
  }

  function Hit(w: Waits, id: nat, peer: nat): Waits {
    w.(peers := w.peers[id := peer], answered := [id] + w.answered)
  }

  function Reply(w: Waits, peer: nat): Waits {
    w.(pending := w.pending - {peer}, answered := Held(w, peer))
  }

  function Release(w: Waits): Waits
    requires w.answered != []
  {
    w.(peers := w.peers - {w.answered[0]}, answered := w.answered[1..])
  }

  ghost predicate IsHeld(w: Waits, id: nat) {
    id in w.peers && id in Held(w, w.peers[id])
  }

  ghost predicate HeldOk(w: Waits, peer: nat) {
    var held := Held(w, peer);
    && NoRepeats(held) && (peer in w.pending ==> held != [])
    && forall i :: 0 <= i < |held| ==> held[i] in w.peers && w.peers[held[i]] == peer
  }

  /** Every waiting handler has one callback, either held for its peer or about to run. */
  ghost predicate Ok(w: Waits) {
    && (forall peer: nat :: HeldOk(w, peer))
    && NoRepeats(w.answered)
    && (forall i :: 0 <= i < |w.answered| ==> w.answered[i] in w.peers && !IsHeld(w, w.answered[i]))
    && (forall id :: id in w.peers ==> id in w.answered || IsHeld(w, id))
  }

  lemma AskKeepsOk(w: Waits, id: nat, peer: nat)
    requires Ok(w) && id !in w.peers
    ensures Ok(Ask(w, id, peer))
  {
    var w' := Ask(w, id, peer);
    forall p: nat
      ensures HeldOk(w', p)
    {
      assert HeldOk(w, p);
    }
    forall i | i in w.peers
      ensures IsHeld(w', i) <==> IsHeld(w, i)
    {
    }
    assert Held(w', peer)[|Held(w, peer)|] == id;
    assert IsHeld(w', id);
  }

  lemma HitKeepsOk(w: Waits, id: nat, peer: nat)
    requires Ok(w) && id !in w.peers
    ensures Ok(Hit(w, id, peer))
  {
    var w' := Hit(w, id, peer);
    forall p: nat
      ensures HeldOk(w', p)
    {
      assert HeldOk(w, p);
    }
    assert HeldOk(w, peer);
    forall i
      ensures IsHeld(w', i) <==> IsHeld(w, i)
    {
    }
    forall i | 0 <= i < |w'.answered|
      ensures w'.answered[i] == if i == 0 then id else w.answered[i - 1]
    {
    }
    forall i | i in w.answered
      ensures i in w'.answered
    {
      var j :| 0 <= j < |w.answered| && w.answered[j] == i;
      assert w'.answered[j + 1] == i;
    }
  }

  lemma ReplyKeepsOk(w: Waits, peer: nat)
    requires Ok(w) && w.answered == []
    ensures Ok(Reply(w, peer))
  {
    var w' := Reply(w, peer);
    assert HeldOk(w, peer);
    forall p: nat
      ensures HeldOk(w', p)
    {
      assert HeldOk(w, p);
    }
  }

  lemma ReleaseKeepsOk(w: Waits)
    requires Ok(w) && w.answered != []
    ensures Ok(Release(w))
  {
    var w', id := Release(w), w.answered[0];
    assert !IsHeld(w, id);
    forall p: nat
      ensures HeldOk(w', p)
    {
      assert HeldOk(w, p);
    }
    forall i | i in w'.peers
      ensures IsHeld(w', i) <==> IsHeld(w, i)
    {
    }
    forall i | 0 <= i < |w'.answered|
      ensures w'.answered[i] == w.answered[i + 1] && w'.answered[i] != id
    {
    }
    forall i | i in w'.peers
      ensures i in w'.answered || IsHeld(w', i)
    {
      if i in w.answered {
        var j :| 0 <= j < |w.answered| && w.answered[j] == i;
        assert w'.answered[j - 1] == i;
      }
    }
  }
}

/**
  One of the two limiters with the handlers that use it: those queued in it, and those between
  the start of their download and downloadFinished.
 */
module DownloadPools {
  import opened Common
  import L = RateLimiting

  datatype Pool = Pool(limiter: L.Limiter, scheduled: set<nat>, downloading: set<nat>)

  /** The queue holds exactly the scheduled handlers, each running job is one download, and the limit is kept. */
  ghost predicate Ok(p: Pool) {
    && L.Valid(p.limiter)
    && L.Jobs(p.limiter.queue) == p.scheduled == L.Waiting(p.limiter.queue)
    && |p.downloading| == p.limiter.running <= p.limiter.concurrency
    && p.scheduled !! p.downloading
  }

  function Start(p: Pool, id: nat): Pool {
    Pool(L.Schedule(p.limiter, id),
         if L.StartsNow(p.limiter) then p.scheduled else p.scheduled + {id},
         if L.StartsNow(p.limiter) then p.downloading + {id} else p.downloading)
  }

  function Complete(p: Pool, id: nat): Pool
    requires p.limiter.running > 0
  {
    var next := L.DoneStarts(p.limiter);
    Pool(L.Done(p.limiter),
         if next.Some? then p.scheduled - {next.value} else p.scheduled,
         if next.Some? then p.downloading - {id} + {next.value} else p.downloading - {id})
  }

  lemma StartKeepsOk(p: Pool, id: nat)
    requires Ok(p) && id !in p.scheduled && id !in p.downloading
    ensures Ok(Start(p, id))
  {
    L.ScheduleSets(p.limiter, id);
  }

  /** A download that ends was running; the next one to start, if any, was queued. */
  lemma CompleteKeepsOk(p: Pool, id: nat)
    requires Ok(p) && id in p.downloading
    ensures p.limiter.running > 0
    ensures L.DoneStarts(p.limiter).Some? ==> L.DoneStarts(p.limiter).value in p.scheduled
    ensures Ok(Complete(p, id))
  {
    assert |p.downloading - {id}| == |p.downloading| - 1;
    L.DoneSets(p.limiter);
    L.DoneValid(p.limiter);
    var next, q := L.DoneStarts(p.limiter), L.Done(p.limiter).queue;
    L.WaitingAre(q);
    L.WaitingAre(p.limiter.queue);
    forall j | j in L.Jobs(q)
      ensures j in L.Waiting(q)
    {
      StaysWaiting(p.limiter, j);
    }
  }

  /** If no entry is cleared before `done`, none is afterwards. */
  lemma StaysWaiting(l: L.Limiter, j: nat)
    requires L.Valid(l) && l.running > 0 && L.Jobs(l.queue) == L.Waiting(l.queue) && j in L.Jobs(L.Done(l).queue)
    ensures j in L.Waiting(L.Done(l).queue)
  {
    L.DoneSets(l);
  }

  /** Cancelling a handler that is not queued does nothing. */
  lemma {:induction false} CancelAbsent(q: seq<L.Entry>, id: nat)
    requires id !in L.Jobs(q)
    ensures L.Clear(q, id) == q
  {
    if q != [] {
      assert forall e :: e in q[..|q| - 1] ==> e in q;
      assert q[|q| - 1] in q;
      CancelAbsent(q[..|q| - 1], id);
    }
  }
}
