/**
  The two-generation credentials cache of src/service/credentialscache.cpp. Peers and
  callbacks are named by numbers; a callback's name is used for one request only.
 */
module CredentialsCaching {
  import opened Common

  const MAX_CACHE_SIZE := 50

  datatype Credentials = Credentials(valid: bool, user: nat, profile: string)

  datatype Cache = Cache(
    current: map<nat, Credentials>,
    previous: map<nat, Credentials>,
    pending: map<nat, seq<nat>>)   // peers being asked for, with the callbacks to notify

  const EMPTY := Cache(map[], map[], map[])

  /** The credentials with which `get` runs the callback before it returns, if it does. */
  function Answer(c: Cache, peer: nat): Option<Credentials> {
    if peer in c.current then Some(c.current[peer])
    else if peer in c.previous then Some(c.previous[peer])
    else None
  }

  function Get(c: Cache, peer: nat, callback: nat): Cache {
    if peer in c.current then c
    else if peer in c.previous then c.(current := c.current[peer := c.previous[peer]], previous := c.previous - {peer})
    else if peer in c.pending then c.(pending := c.pending[peer := c.pending[peer] + [callback]])
    else c.(pending := c.pending[peer := [callback]])
  }

  /** Whether `get` asks the bus daemon. */
  predicate Asks(c: Cache, peer: nat) {
    peer !in c.current && peer !in c.previous && peer !in c.pending
  }

  function Received(c: Cache, peer: nat, credentials: Credentials): Cache
    requires peer in c.pending
  {
    var full := |c.current| >= MAX_CACHE_SIZE;
    var kept := if full then map[] else c.current;
    Cache(if peer in kept then kept else kept[peer := credentials],
          if full then c.current else c.previous,
          c.pending - {peer})
  }

  // ---- Runs ----

  /** A use of a peer's credentials. */
  datatype Use = Hit(peer: nat) | Promoted(peer: nat) | Inserted(peer: nat)

  /** The cache and its history. */
  datatype World = World(
    cache: Cache,
    queries: multiset<nat>,          // queries the bus daemon has not answered yet
    asked: map<nat, nat>,            // callback -> the peer it was registered for
    answers: seq<(nat, Credentials)>,// callbacks run so far, with what they were given
    latest: map<nat, Credentials>,   // the daemon's last answer for each peer
    uses: seq<Use>)

  const NEW_WORLD := World(EMPTY, multiset{}, map[], [], map[], [])

  datatype Op = OpGet(peer: nat, callback: nat) | OpReply(peer: nat, credentials: Credentials)

  predicate Allowed(w: World, op: Op) {
    match op
    case OpGet(_, callback) => callback !in w.asked
    case OpReply(peer, _) => peer in w.queries
  }

  function Told(callbacks: seq<nat>, credentials: Credentials): seq<(nat, Credentials)> {
    seq(|callbacks|, i requires 0 <= i < |callbacks| => (callbacks[i], credentials))
  }

  ghost predicate Ready(w: World, op: Op) {
    Allowed(w, op) && (op.OpReply? ==> op.peer in w.cache.pending)
  }

  ghost function Apply(w: World, op: Op): World
    requires Ready(w, op)
  {
    var c := w.cache;
    match op
    case OpGet(peer, callback) =>
      World(Get(c, peer, callback),
            if Asks(c, peer) then w.queries + multiset{peer} else w.queries,
            w.asked[callback := peer],
            match Answer(c, peer) case Some(cr) => w.answers + [(callback, cr)] case None => w.answers,
            w.latest,
            if peer in c.current then w.uses + [Hit(peer)]
            else if peer in c.previous then w.uses + [Promoted(peer)] else w.uses)
    case OpReply(peer, credentials) =>
      World(Received(c, peer, credentials),
            w.queries - multiset{peer},
            w.asked,
            w.answers + Told(c.pending[peer], credentials),
            w.latest[peer := credentials],
            w.uses + [Inserted(peer)])
  }

  /** The callbacks that have been run, and those still waiting, by name. */
  ghost predicate Ran(w: World, callback: nat) {
    exists i :: 0 <= i < |w.answers| && w.answers[i].0 == callback
  }

  ghost predicate Waits(w: World, callback: nat) {
    callback in w.asked && w.asked[callback] in w.cache.pending && callback in w.cache.pending[w.asked[callback]]
  }

  ghost predicate GenerationsOk(w: World) {
    var c := w.cache;
    && c.current.Keys !! c.previous.Keys
    && c.current.Keys !! c.pending.Keys
    && c.previous.Keys !! c.pending.Keys
    && (forall p: nat :: w.queries[p] == if p in c.pending then 1 else 0)
    && (forall p :: p in c.current ==> p in w.latest && w.latest[p] == c.current[p])
    && (forall p :: p in c.previous ==> p in w.latest && w.latest[p] == c.previous[p])
  }

  ghost predicate CallbacksOk(w: World) {
    && (forall p :: p in w.cache.pending ==> w.cache.pending[p] != [] && NoRepeats(w.cache.pending[p]))
    && (forall p, i :: p in w.cache.pending && 0 <= i < |w.cache.pending[p]| ==>
          w.cache.pending[p][i] in w.asked && w.asked[w.cache.pending[p][i]] == p)
    && (forall i, j :: 0 <= i < j < |w.answers| ==> w.answers[i].0 != w.answers[j].0)
    && (forall i :: 0 <= i < |w.answers| ==> w.answers[i].0 in w.asked && !Waits(w, w.answers[i].0))
    && (forall cb :: cb in w.asked ==> Ran(w, cb) || Waits(w, cb))
  }

  /** The distinct other peers inserted or promoted since `peer` was last used. */
  function Since(uses: seq<Use>, peer: nat): set<nat> {
    if uses == [] then {}
    else
      var last, before := uses[|uses| - 1], uses[..|uses| - 1];
      if last.peer == peer then {}
      else if last.Hit? then Since(before, peer)
      else Since(before, peer) + {last.peer}
  }

  ghost predicate RecencyOk(w: World) {
    forall p :: p in w.cache.previous ==> w.cache.current.Keys <= Since(w.uses, p)
  }

  ghost predicate Inv(w: World) {
    GenerationsOk(w) && CallbacksOk(w) && RecencyOk(w)
  }

  lemma SinceSnoc(uses: seq<Use>, u: Use, peer: nat)
    ensures Since(uses + [u], peer) ==
            if u.peer == peer then {} else if u.Hit? then Since(uses, peer) else Since(uses, peer) + {u.peer}
  {
    assert (uses + [u])[..|uses|] == uses;
  }

  lemma {:induction false} SinceIsOthers(uses: seq<Use>, peer: nat)
    ensures peer !in Since(uses, peer)
  {
    if uses != [] {
      SinceIsOthers(uses[..|uses| - 1], peer);
    }
  }

  lemma GetKeepsInv(w: World, peer: nat, callback: nat)
    requires Inv(w) && Allowed(w, OpGet(peer, callback))
    ensures Inv(Apply(w, OpGet(peer, callback)))
  {
    var op := OpGet(peer, callback);
    GetKeepsGenerations(w, peer, callback);
    if Answer(w.cache, peer).Some? {
      GetAnswersCallback(w, peer, callback);
    } else {
      GetQueuesCallback(w, peer, callback);
    }
    GetKeepsRecency(w, peer, callback);
  }

  lemma GetKeepsGenerations(w: World, peer: nat, callback: nat)
    requires GenerationsOk(w) && Allowed(w, OpGet(peer, callback))
    ensures GenerationsOk(Apply(w, OpGet(peer, callback)))
  {
  }

  lemma GetKeepsRecency(w: World, peer: nat, callback: nat)
    requires GenerationsOk(w) && RecencyOk(w) && Allowed(w, OpGet(peer, callback))
    ensures RecencyOk(Apply(w, OpGet(peer, callback)))
  {
    var w' := Apply(w, OpGet(peer, callback));
    forall p | p in w'.cache.previous
      ensures w'.cache.current.Keys <= Since(w'.uses, p)
    {
      SinceSnoc(w.uses, Hit(peer), p);
      SinceSnoc(w.uses, Promoted(peer), p);
    }
  }

  lemma GetAnswersCallback(w: World, peer: nat, callback: nat)
    requires CallbacksOk(w) && Allowed(w, OpGet(peer, callback)) && Answer(w.cache, peer).Some?
    ensures CallbacksOk(Apply(w, OpGet(peer, callback)))
  {
    var w' := Apply(w, OpGet(peer, callback));
    assert w'.cache.pending == w.cache.pending;
    assert w'.answers[|w.answers|].0 == callback;
    forall i | 0 <= i < |w'.answers|
      ensures !Waits(w', w'.answers[i].0)
    {
      assert i < |w.answers| ==> !Waits(w, w.answers[i].0);
    }
    forall cb | cb in w'.asked
      ensures Ran(w', cb) || Waits(w', cb)
    {
      if cb != callback && Ran(w, cb) {
        var i :| 0 <= i < |w.answers| && w.answers[i].0 == cb;
        assert w'.answers[i].0 == cb;
      }
    }
  }

  lemma GetQueuesCallback(w: World, peer: nat, callback: nat)
    requires CallbacksOk(w) && Allowed(w, OpGet(peer, callback)) && Answer(w.cache, peer).None?
    ensures CallbacksOk(Apply(w, OpGet(peer, callback)))
  {
    var w' := Apply(w, OpGet(peer, callback));
    var before := if peer in w.cache.pending then w.cache.pending[peer] else [];
    assert [] + [callback] == [callback];
    assert w'.cache.pending == w.cache.pending[peer := before + [callback]];
    assert w'.answers == w.answers;
    forall cb | cb != callback
      ensures Waits(w', cb) <==> Waits(w, cb)
    {
    }
    assert (before + [callback])[|before|] == callback;
    forall cb | cb in w'.asked
      ensures Ran(w', cb) || Waits(w', cb)
    {
      assert cb != callback ==> (Ran(w, cb) <==> Ran(w', cb));
    }
  }

  lemma ReplyKeepsInv(w: World, peer: nat, credentials: Credentials)
    requires Inv(w) && Allowed(w, OpReply(peer, credentials))
    ensures Ready(w, OpReply(peer, credentials))
    ensures Inv(Apply(w, OpReply(peer, credentials)))
  {
    var w' := Apply(w, OpReply(peer, credentials));
    ReplyKeepsCallbacks(w, peer, credentials);
    forall p | p in w'.cache.previous
      ensures w'.cache.current.Keys <= Since(w'.uses, p)
    {
      SinceSnoc(w.uses, Inserted(peer), p);
    }
  }

  lemma ReplyAnswers(w: World, peer: nat, credentials: Credentials)
    requires Ready(w, OpReply(peer, credentials))
    ensures var w', n := Apply(w, OpReply(peer, credentials)), |w.answers|;
            && |w'.answers| == n + |w.cache.pending[peer]|
            && (forall i :: 0 <= i < n ==> w'.answers[i] == w.answers[i])
            && (forall i :: n <= i < |w'.answers| ==> w'.answers[i] == (w.cache.pending[peer][i - n], credentials))
            && w'.asked == w.asked && w'.cache.pending == w.cache.pending - {peer}
  {
  }

  /** The callbacks told are those that waited for the peer; each was waiting once and has not run before. */
  lemma ReplyRunsOnce(w: World, w': World, peer: nat)
    requires CallbacksOk(w) && peer in w.cache.pending
    requires var n := |w.answers|;
             && |w'.answers| == n + |w.cache.pending[peer]|
             && (forall i :: 0 <= i < n ==> w'.answers[i] == w.answers[i])
             && (forall i :: n <= i < |w'.answers| ==> w'.answers[i].0 == w.cache.pending[peer][i - n])
             && w'.asked == w.asked && w'.cache.pending == w.cache.pending - {peer}
    ensures forall i, j :: 0 <= i < j < |w'.answers| ==> w'.answers[i].0 != w'.answers[j].0
    ensures forall i :: 0 <= i < |w'.answers| ==> w'.answers[i].0 in w'.asked && !Waits(w', w'.answers[i].0)
  {
    var n, told := |w.answers|, w.cache.pending[peer];
    forall i, j | 0 <= i < j < |w'.answers|
      ensures w'.answers[i].0 != w'.answers[j].0
    {
      if i < n <= j {
        assert !Waits(w, w.answers[i].0);
        assert Waits(w, told[j - n]);
      } else if n <= i {
        assert told[i - n] != told[j - n];
      }
    }
    forall i | 0 <= i < |w'.answers|
      ensures w'.answers[i].0 in w'.asked && !Waits(w', w'.answers[i].0)
    {
      if i < n {
        assert !Waits(w, w.answers[i].0);
      } else {
        assert w.asked[told[i - n]] == peer;
      }
    }
  }

  lemma ReplyLosesNone(w: World, w': World, peer: nat)
    requires CallbacksOk(w) && peer in w.cache.pending
    requires var n := |w.answers|;
             && |w'.answers| == n + |w.cache.pending[peer]|
             && (forall i :: 0 <= i < n ==> w'.answers[i] == w.answers[i])
             && (forall i :: n <= i < |w'.answers| ==> w'.answers[i].0 == w.cache.pending[peer][i - n])
             && w'.asked == w.asked && w'.cache.pending == w.cache.pending - {peer}
    ensures forall cb :: cb in w'.asked ==> Ran(w', cb) || Waits(w', cb)
  {
    var n, told := |w.answers|, w.cache.pending[peer];
    forall cb | cb in w'.asked
      ensures Ran(w', cb) || Waits(w', cb)
    {
      if Ran(w, cb) {
        var i :| 0 <= i < n && w.answers[i].0 == cb;
        assert w'.answers[i].0 == cb;
      } else if w.asked[cb] == peer {
        var i :| 0 <= i < |told| && told[i] == cb;
        assert w'.answers[n + i].0 == cb;
      }
    }
  }

  lemma ReplyKeepsCallbacks(w: World, peer: nat, credentials: Credentials)
    requires CallbacksOk(w) && Ready(w, OpReply(peer, credentials))
    ensures CallbacksOk(Apply(w, OpReply(peer, credentials)))
  {
    ReplyAnswers(w, peer, credentials);
    hide Apply;
    var w' := Apply(w, OpReply(peer, credentials));
    ReplyRunsOnce(w, w', peer);
    ReplyLosesNone(w, w', peer);
  }

  // ---- What holds over every run ----

  ghost predicate Legal(w: World, ops: seq<Op>)
    decreases |ops|
  {
    ops == [] || (Allowed(w, ops[0]) && (Ready(w, ops[0]) ==> Legal(Apply(w, ops[0]), ops[1..])))
  }

  /** The world after a run; None if a reply arrived for a peer that is not pending. */
  ghost function Run(w: World, ops: seq<Op>): Option<World>
    requires Legal(w, ops)
    decreases |ops|
  {
    if ops == [] then Some(w)
    else if !Ready(w, ops[0]) then None
    else Run(Apply(w, ops[0]), ops[1..])
  }

  lemma ApplyKeepsInv(w: World, op: Op)
    requires Inv(w) && Allowed(w, op)
    ensures Ready(w, op) && Inv(Apply(w, op))
  {
    match op
    case OpGet(peer, callback) => GetKeepsInv(w, peer, callback);
    case OpReply(peer, credentials) => ReplyKeepsInv(w, peer, credentials);
  }

  lemma {:induction false} RunKeepsInv(w: World, ops: seq<Op>)
    requires Inv(w) && Legal(w, ops)
    ensures Run(w, ops).Some? && Inv(Run(w, ops).value)
    decreases |ops|
  {
    if ops != [] {
      ApplyKeepsInv(w, ops[0]);
      RunKeepsInv(Apply(w, ops[0]), ops[1..]);
    }
  }

  /**
    In every reachable state the two generations and the pending queries are about different
    peers, one query is out for each pending peer and none for another, cached credentials are
    the daemon's last answer, and every registered callback has run once or is waiting, not both.
   */
  lemma CacheIsConsistent(ops: seq<Op>)
    requires Legal(NEW_WORLD, ops)
    ensures Run(NEW_WORLD, ops).Some?
    ensures GenerationsOk(Run(NEW_WORLD, ops).value) && CallbacksOk(Run(NEW_WORLD, ops).value)
  {
    RunKeepsInv(NEW_WORLD, ops);
  }

  /** Whenever a callback is run, at once or on a reply, it is given the daemon's last answer for its peer. */
  lemma AnswersAreTheDaemons(w: World, op: Op, i: nat)
    requires Inv(w) && Allowed(w, op) && Ready(w, op)
    requires |w.answers| <= i < |Apply(w, op).answers|
    ensures var w' := Apply(w, op);
            && w'.answers[i].0 in w'.asked
            && w'.asked[w'.answers[i].0] == op.peer
            && op.peer in w'.latest && w'.answers[i].1 == w'.latest[op.peer]
  {
    match op
    case OpGet(peer, callback) =>
    case OpReply(peer, credentials) => ReplyAnswers(w, peer, credentials);
  }

  predicate Cached(c: Cache, peer: nat) {
    peer in c.current || peer in c.previous
  }

  /**
    Eviction approximates least recently used: a peer's credentials are dropped only if at
    least MAX_CACHE_SIZE other peers have been inserted or promoted since it was last used.
   */
  lemma DropsOnlyTheUnused(w: World, op: Op, peer: nat)
    requires Inv(w) && Allowed(w, op) && Ready(w, op)
    requires Cached(w.cache, peer) && !Cached(Apply(w, op).cache, peer)
    ensures |Since(w.uses, peer)| >= MAX_CACHE_SIZE && peer !in Since(w.uses, peer)
  {
    SinceIsOthers(w.uses, peer);
    assert op.OpReply? && peer in w.cache.previous;
    SubsetSize(w.cache.current.Keys, Since(w.uses, peer));
  }

  /** A peer that was answered for is cached as long as fewer than MAX_CACHE_SIZE others have come after it. */
  ghost predicate Remembers(w: World, peer: nat) {
    peer in w.latest && |Since(w.uses, peer)| < MAX_CACHE_SIZE ==> Cached(w.cache, peer)
  }

  lemma StepRemembers(w: World, op: Op, peer: nat)
    requires Inv(w) && Allowed(w, op) && Ready(w, op) && Remembers(w, peer)
    ensures Remembers(Apply(w, op), peer)
  {
    SinceSnoc(w.uses, Hit(op.peer), peer);
    SinceSnoc(w.uses, Promoted(op.peer), peer);
    SinceSnoc(w.uses, Inserted(op.peer), peer);
    SubsetSize(Since(w.uses, peer), Since(w.uses, peer) + {op.peer});
    if Cached(w.cache, peer) && !Cached(Apply(w, op).cache, peer) {
      DropsOnlyTheUnused(w, op, peer);
    }
    hide Since, CallbacksOk, RecencyOk;
  }

  lemma {:induction false} LegalSplit(w: World, before: seq<Op>, op: Op)
    requires Inv(w) && Legal(w, before + [op])
    ensures Legal(w, before) && Run(w, before).Some? && Inv(Run(w, before).value)
    ensures Allowed(Run(w, before).value, op) && Ready(Run(w, before).value, op)
    ensures Run(w, before + [op]) == Some(Apply(Run(w, before).value, op))
    decreases |before|
  {
    var all := before + [op];
    hide Inv, Apply;
    ApplyKeepsInv(w, all[0]);
    if before == [] {
      assert all[0] == op && all[1..] == [];
    } else {
      assert all[0] == before[0] && all[1..] == before[1..] + [op];
      LegalSplit(Apply(w, before[0]), before[1..], op);
    }
  }

  lemma {:induction false} RunRemembers(ops: seq<Op>, peer: nat)
    requires Legal(NEW_WORLD, ops)
    ensures Run(NEW_WORLD, ops).Some? && Inv(Run(NEW_WORLD, ops).value) && Remembers(Run(NEW_WORLD, ops).value, peer)
    decreases |ops|
  {
    NewWorldInv();
    if ops != [] {
      var before, op := ops[..|ops| - 1], ops[|ops| - 1];
      assert ops == before + [op];
      hide Inv, Since, Apply, Remembers, Legal;
      LegalSplit(NEW_WORLD, before, op);
      RunRemembers(before, peer);
      StepRemembers(Run(NEW_WORLD, before).value, op, peer);
      ApplyKeepsInv(Run(NEW_WORLD, before).value, op);
    }
  }

  /**
    Over every run, the cache answers at once, with the daemon's last answer and without asking
    it again, for every peer since whose last use fewer than MAX_CACHE_SIZE others were
    inserted or promoted.
   */
  lemma RecentIsAnswered(ops: seq<Op>, peer: nat)
    requires Legal(NEW_WORLD, ops)
    ensures Run(NEW_WORLD, ops).Some?
    ensures var w := Run(NEW_WORLD, ops).value;
            peer in w.latest && |Since(w.uses, peer)| < MAX_CACHE_SIZE ==>
              Answer(w.cache, peer) == Some(w.latest[peer]) && !Asks(w.cache, peer)
  {
    RunRemembers(ops, peer);
    hide Run, Since, CallbacksOk, RecencyOk;
  }

  /**
    Callbacks are run first come, first served: one that has to wait is put behind those that
    wait for the same peer, and a reply runs them in that order. One that need not is run at once.
   */
  lemma CallbacksInOrder(w: World, op: Op)
    requires Inv(w) && Allowed(w, op) && Ready(w, op)
    ensures var w' := Apply(w, op);
            var held := if op.peer in w.cache.pending then w.cache.pending[op.peer] else [];
            match op
            case OpGet(peer, callback) =>
              if Cached(w.cache, peer) then
                w'.cache.pending == w.cache.pending && w'.answers == w.answers + [(callback, w.latest[peer])]
              else
                w'.cache.pending == w.cache.pending[peer := held + [callback]] && w'.answers == w.answers
            case OpReply(peer, credentials) =>
              && w'.cache.pending == w.cache.pending - {peer}
              && |w'.answers| == |w.answers| + |held| && w'.answers[..|w.answers|] == w.answers
              && forall i :: 0 <= i < |held| ==> w'.answers[|w.answers| + i] == (held[i], credentials)
  {
    hide Inv, Apply;
    match op
    case OpGet(peer, callback) => GetInOrder(w, peer, callback);
    case OpReply(peer, credentials) => ReplyInOrder(w, peer, credentials);
  }

  lemma GetInOrder(w: World, peer: nat, callback: nat)
    requires Inv(w) && Allowed(w, OpGet(peer, callback))
    ensures var w', c := Apply(w, OpGet(peer, callback)), w.cache;
            if Cached(c, peer) then
              w'.cache.pending == c.pending && w'.answers == w.answers + [(callback, w.latest[peer])]
            else
              && w'.cache.pending == c.pending[peer := (if peer in c.pending then c.pending[peer] else []) + [callback]]
              && w'.answers == w.answers
  {
    assert [] + [callback] == [callback];
    hide CallbacksOk, RecencyOk;
  }

  lemma ReplyInOrder(w: World, peer: nat, credentials: Credentials)
    requires peer in w.cache.pending && Ready(w, OpReply(peer, credentials))
    ensures var w', held := Apply(w, OpReply(peer, credentials)), w.cache.pending[peer];
            && w'.cache.pending == w.cache.pending - {peer}
            && |w'.answers| == |w.answers| + |held| && w'.answers[..|w.answers|] == w.answers
            && forall i :: 0 <= i < |held| ==> w'.answers[|w.answers| + i] == (held[i], credentials)
  {
    assert Told(w.cache.pending[peer], credentials) == Apply(w, OpReply(peer, credentials)).answers[|w.answers|..];
  }

  /** The current generation is within its limit right after each reply, whatever it had grown to. */
  lemma LimitAfterReply(w: World, peer: nat, credentials: Credentials)
    requires Ready(w, OpReply(peer, credentials))
    ensures |Apply(w, OpReply(peer, credentials)).cache.current| <= MAX_CACHE_SIZE == 50
  {
  }

  /**
    Exactly when an operation leaves the current generation within the limit: always for a
    reply, and otherwise unless a promotion is one too many.
   */
  lemma WithinLimitIff(w: World, op: Op)
    requires Inv(w) && Allowed(w, op)
    ensures Ready(w, op)
    ensures |Apply(w, op).cache.current| <= MAX_CACHE_SIZE <==>
              op.OpReply? || |w.cache.current| + (if op.peer in w.cache.previous then 1 else 0) <= MAX_CACHE_SIZE
  {
    if op.OpReply? {
      ReplyKeepsInv(w, op.peer, op.credentials);
      LimitAfterReply(w, op.peer, op.credentials);
    } else if op.peer in w.cache.previous {
      Promotion(w.cache, op.peer, op.callback);
    }
  }

  // ---- The limit is not a bound ----

  ghost predicate Reachable(w: World) {
    exists ops :: Legal(NEW_WORLD, ops) && Run(NEW_WORLD, ops) == Some(w)
  }

  lemma {:induction false} RunSnoc(w0: World, ops: seq<Op>, op: Op)
    requires Legal(w0, ops) && Run(w0, ops).Some? && Ready(Run(w0, ops).value, op)
    ensures Legal(w0, ops + [op]) && Run(w0, ops + [op]) == Some(Apply(Run(w0, ops).value, op))
    decreases |ops|
  {
    hide Apply;
    if ops == [] {
      assert ([] + [op])[1..] == [];
    } else {
      RunSnoc(Apply(w0, ops[0]), ops[1..], op);
      assert (ops + [op])[1..] == ops[1..] + [op];
    }
  }

  lemma NewWorldInv()
    ensures Inv(NEW_WORLD)
  {
  }

  lemma ReachableStep(w: World, op: Op)
    requires Reachable(w) && Allowed(w, op)
    ensures Inv(w) && Ready(w, op) && Reachable(Apply(w, op)) && Inv(Apply(w, op))
  {
    hide Apply;
    hide GenerationsOk;
    hide CallbacksOk;
    hide RecencyOk;
    var ops :| Legal(NEW_WORLD, ops) && Run(NEW_WORLD, ops) == Some(w);
    NewWorldInv();
    RunKeepsInv(NEW_WORLD, ops);
    ApplyKeepsInv(w, op);
    RunSnoc(NEW_WORLD, ops, op);
  }

  lemma {:induction false} FreshName(taken: set<nat>) returns (x: nat)
    ensures forall t :: t in taken ==> t < x
    decreases |taken|
  {
    if taken == {} {
      x := 0;
    } else {
      var t :| t in taken;
      var y := FreshName(taken - {t});
      x := if t < y then y else t + 1;
      forall u | u in taken
        ensures u < x
      {
        assert u != t ==> u in taken - {t};
      }
    }
  }

  /** A peer seen for the first time is inserted. */
  lemma InsertNew(w: World) returns (w': World)
    requires Reachable(w) && w.cache.pending == map[]
    ensures Reachable(w') && w'.cache.pending == map[]
    ensures if |w.cache.current| < MAX_CACHE_SIZE
            then |w'.cache.current| == |w.cache.current| + 1 && w'.cache.previous == w.cache.previous
            else |w'.cache.current| == 1 && w'.cache.previous == w.cache.current
  {
    var peer := FreshName(w.cache.current.Keys + w.cache.previous.Keys);
    var callback := FreshName(w.asked.Keys);
    ReachableStep(w, OpGet(peer, callback));
    var asking := Apply(w, OpGet(peer, callback));
    assert peer in asking.cache.pending;
    var credentials := Credentials(true, 0, "");
    ReachableStep(asking, OpReply(peer, credentials));
    w' := Apply(asking, OpReply(peer, credentials));
  }

  /** Using every peer of the previous generation moves all of it into the current one, without a size check. */
  lemma {:induction false} PromoteAll(w: World) returns (w': World)
    requires Reachable(w) && w.cache.pending == map[]
    ensures Reachable(w') && w'.cache.pending == map[] && w'.cache.previous == map[]
    ensures |w'.cache.current| == |w.cache.current| + |w.cache.previous|
    decreases |w.cache.previous|
  {
    if w.cache.previous == map[] {
      w' := w;
    } else {
      var peer :| peer in w.cache.previous;
      var next := PromoteOne(w, peer);
      w' := PromoteAll(next);
    }
  }

  lemma PromoteOne(w: World, peer: nat) returns (w': World)
    requires Reachable(w) && w.cache.pending == map[] && peer in w.cache.previous
    ensures Reachable(w') && w'.cache.pending == map[]
    ensures |w'.cache.current| == |w.cache.current| + 1 && |w'.cache.previous| == |w.cache.previous| - 1
  {
    hide Reachable, CallbacksOk, RecencyOk, Get;
    var callback := FreshName(w.asked.Keys);
    ReachableStep(w, OpGet(peer, callback));
    assert peer !in w.cache.current;
    w' := Apply(w, OpGet(peer, callback));
    Promotion(w.cache, peer, callback);
  }

  lemma Promotion(c: Cache, peer: nat, callback: nat)
    requires peer in c.previous && peer !in c.current
    ensures var c' := Get(c, peer, callback);
            c'.pending == c.pending && |c'.current| == |c.current| + 1 && |c'.previous| == |c.previous| - 1
  {
    var c' := Get(c, peer, callback);
    assert c'.current.Keys == c.current.Keys + {peer} && c'.previous.Keys == c.previous.Keys - {peer};
    Cardinalities(c, c', peer);
  }

  lemma Cardinalities(c: Cache, c': Cache, peer: nat)
    requires peer in c.previous && peer !in c.current
    requires c'.current.Keys == c.current.Keys + {peer} && c'.previous.Keys == c.previous.Keys - {peer}
    ensures |c'.current| == |c.current| + 1 && |c'.previous| == |c.previous| - 1
  {
    assert |c.current| == |c.current.Keys| && |c'.current| == |c'.current.Keys|;
    assert |c.previous| == |c.previous.Keys| && |c'.previous| == |c'.previous.Keys|;
  }

  lemma {:induction false} FillUp(w: World) returns (w': World)
    requires Reachable(w) && w.cache.pending == map[]
    ensures Reachable(w') && w'.cache.pending == map[]
    ensures |w'.cache.current| >= MAX_CACHE_SIZE && |w'.cache.current| >= |w.cache.current|
    decreases MAX_CACHE_SIZE - |w.cache.current|
  {
    w' := w;
    if |w.cache.current| < MAX_CACHE_SIZE {
      w' := InsertNew(w);
      w' := FillUp(w');
    }
  }

  lemma {:induction false} Grow(n: nat) returns (w: World)
    ensures Reachable(w) && w.cache.pending == map[] && |w.cache.current| >= n
    decreases n
  {
    if n == 0 {
      w := NEW_WORLD;
      assert Legal(w, []) && Run(w, []) == Some(w);
    } else {
      w := Grow(n - 1);
      w := FillUp(w);
      w := InsertNew(w);
      w := PromoteAll(w);
    }
  }

  /** MAX_CACHE_SIZE does not limit the cache: peers that keep being used let it grow past any size. */
  lemma NoBound(n: nat)
    ensures exists w :: Reachable(w) && |w.cache.current| >= n
  {
    var w := Grow(n);
  }

  // ---- What the daemon's reply is turned into ----

  /** The daemon's answer: an error, or the user with the raw security label. */
  datatype Reply = ErrorReply | UserReply(user: nat, rawLabel: string)

  function LastIndexOf(s: string, c: char): (pos: int)
    ensures -1 <= pos < |s|
    ensures pos >= 0 ==> s[pos] == c
    ensures forall i :: pos < i < |s| ==> s[i] != c
  {
    if s == "" then -1
    else if s[|s| - 1] == c then |s| - 1
    else LastIndexOf(s[..|s| - 1], c)
  }

  /** Drops the terminating NUL and a mode in parentheses at the end. */
  function TrimLabel(raw: string): string
    requires raw != "" ==> raw[|raw| - 1] == '\0'
  {
    if raw == "" then ""
    else
      var text := raw[..|raw| - 1];
      var pos := LastIndexOf(text, ' ');
      if pos > 0 && text[|text| - 1] == ')' && text[pos + 1] == '(' then text[..pos] else text
  }

  function FromReply(reply: Reply, apparmorEnabled: bool): (c: Credentials)
    requires reply.UserReply? && reply.rawLabel != "" ==> reply.rawLabel[|reply.rawLabel| - 1] == '\0'
    ensures c.valid <==> reply.UserReply?
  {
    match reply
    case ErrorReply => Credentials(false, 0, "")
    case UserReply(user, raw) => Credentials(true, user, if apparmorEnabled then TrimLabel(raw) else "unconfined")
  }

  /** A label is a profile's name, with or without a mode in parentheses after it. */
  ghost predicate HasMode(text: string, profile: string, mode: string) {
    text == profile + " (" + mode + ")" && profile != "" && ' ' !in mode
  }

  /** `profile` is what the NUL-terminated label says: the name without the mode, if there is one. */
  ghost predicate ProfileOf(raw: string, profile: string) {
    if raw == "" then profile == ""
    else
      var text := raw[..|raw| - 1];
      if exists name, mode :: HasMode(text, name, mode) then exists mode :: HasMode(text, profile, mode)
      else profile == text
  }

  lemma ModeIsLast(text: string, profile: string, mode: string)
    requires HasMode(text, profile, mode)
    ensures LastIndexOf(text, ' ') == |profile| > 0 && text[|text| - 1] == ')' && text[|profile| + 1] == '('
    ensures text[..|profile|] == profile
  {
    assert text[|profile|] == ' ';
    forall i | |profile| < i < |text|
      ensures text[i] != ' '
    {
      assert text[i] == ("(" + mode + ")")[i - |profile| - 1];
    }
  }

  /** What the code trims is exactly a mode, and nothing else. */
  lemma TrimLabelIsProfile(raw: string, profile: string)
    requires raw != "" ==> raw[|raw| - 1] == '\0'
    ensures TrimLabel(raw) == profile <==> ProfileOf(raw, profile)
  {
    if raw != "" {
      var text := raw[..|raw| - 1];
      var pos := LastIndexOf(text, ' ');
      if pos > 0 && text[|text| - 1] == ')' && text[pos + 1] == '(' {
        var mode := text[pos + 2..|text| - 1];
        assert text == text[..pos] + " (" + mode + ")";
        assert HasMode(text, text[..pos], mode);
      }
      forall name, mode | HasMode(text, name, mode)
        ensures TrimLabel(raw) == name
      {
        ModeIsLast(text, name, mode);
      }
    }
  }

  /**
    What the credentials are worth: they are valid exactly if the daemon knew the peer, and
    then carry its user and, under AppArmor, the profile that its label names; without
    AppArmor every peer counts as unconfined.
   */
  lemma FromReplyMeans(reply: Reply, apparmorEnabled: bool)
    requires reply.UserReply? && reply.rawLabel != "" ==> reply.rawLabel[|reply.rawLabel| - 1] == '\0'
    ensures var c := FromReply(reply, apparmorEnabled);
            && (c.valid <==> reply.UserReply?)
            && (reply.ErrorReply? ==> c == Credentials(false, 0, ""))
            && (reply.UserReply? ==> c.user == reply.user)
            && (reply.UserReply? && !apparmorEnabled ==> c.profile == "unconfined")
            && (reply.UserReply? && apparmorEnabled ==>
                  forall p :: c.profile == p <==> ProfileOf(reply.rawLabel, p))
  {
    if reply.UserReply? && apparmorEnabled {
      forall p
        ensures TrimLabel(reply.rawLabel) == p <==> ProfileOf(reply.rawLabel, p)
      {
        TrimLabelIsProfile(reply.rawLabel, p);
      }
    }
  }

  /** A label with a mode is reduced to the profile, even when the profile's name has spaces. */
  lemma TrimLabelDropsMode(profile: string, mode: string)
    requires profile != "" && ' ' !in mode
    ensures TrimLabel(profile + " (" + mode + ")\0") == profile
  {
    var text := profile + " (" + mode + ")";
    assert (text + "\0")[..|text|] == text;
    assert HasMode(text, profile, mode);
    ModeIsLast(text, profile, mode);
    assert text + "\0" == profile + " (" + mode + ")\0";
  }

  /** A label without a mode keeps everything but the NUL. */
  lemma TrimLabelKeepsProfile(profile: string)
    requires profile != "" && profile[|profile| - 1] != ')'
    ensures TrimLabel(profile + "\0") == profile
  {
    assert (profile + "\0")[..|profile|] == profile;
  }
}
