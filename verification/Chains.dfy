/**
  The chains of src/service/dbusinterface.cpp: handlers for the same key wait for each other.
  Handlers are named by numbers. Only what concerns the chains is in this module; the
  module ServiceProtocol says when these transitions happen.
 */
module KeyChains {
  import opened Common

  datatype Phase = NotBegun | AtWork | Over

  datatype Queues = Queues(
    keys: map<nat, string>,         // the key of each handler that exists
    phases: map<nat, Phase>,        // what has become of it
    requests: set<nat>,             // requests_
    chains: map<string, seq<nat>>,  // request_keys_
    links: map<nat, nat>,           // finished() of one handler is connected to begin() of another
    due: Option<nat>,               // the handler whose begin() is about to be called by such a connection
    ever: set<nat>,
    arrived: map<string, seq<nat>>, // handlers by key, in order of arrival
    departed: map<string, seq<nat>>) // handlers by key, in order of finishing

  const NO_QUEUES := Queues(map[], map[], {}, map[], map[], None, {}, map[], map[])

  function At(m: map<string, seq<nat>>, key: string): seq<nat> {
    if key in m then m[key] else []
  }

  /** std::remove. */
  function Without(chain: seq<nat>, id: nat): seq<nat> {
    if chain == [] then []
    else (if chain[0] == id then [] else [chain[0]]) + Without(chain[1..], id)
  }

  /** A new handler: it begins if its chain is empty, and otherwise waits for the last in the chain. */
  function Arrive(q: Queues, id: nat, key: string): Queues {
    var chain := At(q.chains, key);
    Queues(q.keys[id := key],
           q.phases[id := if chain == [] then AtWork else NotBegun],
           q.requests + {id},
           q.chains[key := chain + [id]],
           if chain == [] then q.links else q.links[chain[|chain| - 1] := id],
           q.due,
           q.ever + {id},
           q.arrived[key := At(q.arrived, key) + [id]],
           q.departed)
  }

  function BeginDue(q: Queues): Queues
    requires q.due.Some?
  {
    q.(phases := q.phases[q.due.value := AtWork], due := None)
  }

  /** requestFinished, and the connection to the next handler fires. */
  function Finish(q: Queues, id: nat): Queues
    requires id in q.keys
  {
    var key := q.keys[id];
    var rest := Without(At(q.chains, key), id);
    Queues(q.keys,
           q.phases[id := Over],
           q.requests - {id},
           if rest == [] then q.chains - {key} else q.chains[key := rest],
           q.links,
           if id in q.links && q.links[id] in q.keys then Some(q.links[id]) else q.due,
           q.ever,
           q.arrived,
           q.departed[key := At(q.departed, key) + [id]])
  }

  function Delete(q: Queues, id: nat): Queues {
    q.(keys := q.keys - {id}, phases := q.phases - {id})
  }

  // ---- What holds of them ----

  predicate IsIn(q: Queues, id: nat, phase: Phase) {
    id in q.phases && q.phases[id] == phase
  }

  /** Each in the chain is linked to the next. */
  ghost predicate Linked(links: map<nat, nat>, chain: seq<nat>) {
    |chain| > 1 ==> chain[0] in links && links[chain[0]] == chain[1] && Linked(links, chain[1..])
  }

  ghost predicate Member(q: Queues, key: string, id: nat) {
    id in q.requests && id in q.ever && id in q.keys && q.keys[id] == key
  }

  /** Only the first handler of a chain has begun, or is just about to; each is linked to the next. */
  ghost predicate ChainOk(q: Queues, key: string)
    requires key in q.chains
  {
    var chain := q.chains[key];
    && chain != []
    && NoRepeats(chain)
    && (forall i :: 0 <= i < |chain| ==> Member(q, key, chain[i]))
    && (forall i :: 0 < i < |chain| ==> IsIn(q, chain[i], NotBegun))
    && IsIn(q, chain[0], if q.due == Some(chain[0]) then NotBegun else AtWork)
    && Linked(q.links, chain)
    && chain[|chain| - 1] !in q.links
  }

  ghost predicate RequestOk(q: Queues, id: nat) {
    && id in q.keys && id in q.ever
    && q.keys[id] in q.chains && id in q.chains[q.keys[id]]
  }

  ghost predicate HandlerOk(q: Queues, id: nat) {
    id in q.phases && id in q.ever && (id !in q.requests ==> q.phases[id] == Over)
  }

  ghost predicate OrderOk(q: Queues, key: string) {
    At(q.arrived, key) == At(q.departed, key) + At(q.chains, key)
  }

  ghost predicate DueOk(q: Queues) {
    q.due.Some? ==> q.due.value in q.keys && At(q.chains, q.keys[q.due.value]) != []
                    && q.chains[q.keys[q.due.value]][0] == q.due.value
  }

  ghost predicate Ok(q: Queues) {
    && (forall key :: key in q.chains ==> ChainOk(q, key))
    && (forall id :: id in q.requests ==> RequestOk(q, id))
    && (forall id :: id in q.keys ==> HandlerOk(q, id))
    && q.phases.Keys == q.keys.Keys
    && q.links.Keys <= q.ever
    && DueOk(q)
    && (forall key: string :: OrderOk(q, key))
  }

  /** A request that is at work is the first of its chain, and none of its chain is due. */
  lemma WorkingIsFirst(q: Queues, id: nat)
    requires Ok(q) && id in q.requests && IsIn(q, id, AtWork)
    ensures RequestOk(q, id) && q.chains[q.keys[id]][0] == id
    ensures q.due != Some(id)
  {
    assert RequestOk(q, id);
    var key := q.keys[id];
    assert ChainOk(q, key);
    var i :| 0 <= i < |q.chains[key]| && q.chains[key][i] == id;
    assert i > 0 ==> IsIn(q, q.chains[key][i], NotBegun);
  }

  lemma DueIsFirst(q: Queues)
    requires Ok(q) && q.due.Some?
    ensures RequestOk(q, q.due.value) && q.chains[q.keys[q.due.value]][0] == q.due.value
    ensures q.due.value in q.requests && IsIn(q, q.due.value, NotBegun)
  {
    var key := q.keys[q.due.value];
    assert ChainOk(q, key);
    assert Member(q, key, q.chains[key][0]);
  }

  lemma {:induction false} LinkedFrame(links: map<nat, nat>, links': map<nat, nat>, chain: seq<nat>)
    requires Linked(links, chain)
    requires forall id :: id in chain && id in links ==> id in links' && links'[id] == links[id]
    ensures Linked(links', chain)
  {
    if |chain| > 1 {
      assert chain[0] in chain;
      LinkedFrame(links, links', chain[1..]);
    }
  }

  lemma {:induction false} LinkedSnoc(links: map<nat, nat>, chain: seq<nat>, id: nat)
    requires Linked(links, chain) && chain != [] && NoRepeats(chain)
    ensures Linked(links[chain[|chain| - 1] := id], chain + [id])
  {
    if |chain| > 1 {
      LinkedSnoc(links, chain[1..], id);
      assert (chain + [id])[1..] == chain[1..] + [id];
    }
  }

  /** A chain none of whose handlers changes in what matters to it stays in order. */
  lemma ChainFrame(q: Queues, q': Queues, key: string)
    requires key in q.chains && ChainOk(q, key) && key in q'.chains && q'.chains[key] == q.chains[key]
    requires forall id :: Member(q, key, id) ==>
               && Member(q', key, id)
               && (id in q.phases ==> id in q'.phases && q'.phases[id] == q.phases[id])
               && (q'.due == Some(id) <==> q.due == Some(id))
               && (id in q.links <==> id in q'.links)
               && (id in q.links ==> q'.links[id] == q.links[id])
    ensures ChainOk(q', key)
  {
    var chain := q.chains[key];
    forall i | 0 <= i < |chain|
      ensures Member(q, key, chain[i]) && Member(q', key, chain[i])
    {
    }
    LinkedFrame(q.links, q'.links, chain);
  }

  // ---- Arrival ----

  lemma ArriveKeepsOk(q: Queues, id: nat, key: string)
    requires Ok(q) && id !in q.ever && q.due.None?
    ensures Ok(Arrive(q, id, key))
  {
    var q' := Arrive(q, id, key);
    assert q'.due.None? && q'.phases.Keys == q'.keys.Keys;
    hide Arrive, ChainOk, RequestOk, HandlerOk, OrderOk;
    forall k | k in q'.chains
      ensures ChainOk(q', k)
    {
      ArriveChain(q, id, key, k);
    }
    forall i | i in q'.requests
      ensures RequestOk(q', i)
    {
      ArriveRequest(q, id, key, i);
    }
    ArriveHandlers(q, id, key);
    forall k: string
      ensures OrderOk(q', k)
    {
      ArriveOrder(q, id, key, k);
    }
  }

  lemma ArriveOrder(q: Queues, id: nat, key: string, k: string)
    requires OrderOk(q, k)
    ensures OrderOk(Arrive(q, id, key), k)
  {
  }

  lemma ArriveHandlers(q: Queues, id: nat, key: string)
    requires Ok(q) && id !in q.ever && q.due.None?
    ensures forall i :: i in Arrive(q, id, key).keys ==> HandlerOk(Arrive(q, id, key), i)
    ensures Arrive(q, id, key).links.Keys <= Arrive(q, id, key).ever
  {
    forall i | i in Arrive(q, id, key).keys
      ensures HandlerOk(Arrive(q, id, key), i)
    {
      assert i != id ==> HandlerOk(q, i);
    }
    var chain := At(q.chains, key);
    if chain != [] {
      assert ChainOk(q, key);
      assert Member(q, key, chain[|chain| - 1]);
    }
  }

  lemma ArriveRequest(q: Queues, id: nat, key: string, i: nat)
    requires Ok(q) && i in Arrive(q, id, key).requests
    ensures RequestOk(Arrive(q, id, key), i)
  {
    var chain := At(q.chains, key);
    assert (chain + [id])[|chain|] == id;
    if i != id {
      assert RequestOk(q, i);
      if q.keys[i] == key {
        var j :| 0 <= j < |chain| && chain[j] == i;
        assert (chain + [id])[j] == i;
      }
    }
  }

  lemma ArriveChain(q: Queues, id: nat, key: string, k: string)
    requires Ok(q) && id !in q.ever && q.due.None? && k in Arrive(q, id, key).chains
    ensures ChainOk(Arrive(q, id, key), k)
  {
    assert q.links.Keys <= q.ever;
    hide Ok, ChainOk;
    if k != key {
      OneChain(q, k);
      ArriveElsewhere(q, id, key, k);
    } else if key in q.chains {
      OneChain(q, key);
      LongerChain(q, id, key);
    } else {
      NewChain(q, id, key);
    }
  }

  lemma OneChain(q: Queues, key: string)
    requires Ok(q) && key in q.chains
    ensures ChainOk(q, key) && q.chains[key] != []
    ensures Member(q, key, q.chains[key][0]) && Member(q, key, q.chains[key][|q.chains[key]| - 1])
  {
    assert ChainOk(q, key);
  }

  lemma NewChain(q: Queues, id: nat, key: string)
    requires key !in q.chains && id !in q.ever && q.links.Keys <= q.ever && q.due.None?
    ensures ChainOk(Arrive(q, id, key), key)
  {
    assert Member(Arrive(q, id, key), key, id);
  }

  lemma ArriveElsewhere(q: Queues, id: nat, key: string, k: string)
    requires k in q.chains && ChainOk(q, k) && k != key && id !in q.ever && q.due.None?
    requires key in q.chains ==> q.chains[key] != [] && Member(q, key, q.chains[key][|q.chains[key]| - 1])
    ensures ChainOk(Arrive(q, id, key), k)
  {
    hide ChainOk;
    ChainFrame(q, Arrive(q, id, key), k);
  }

  lemma LongerChain(q: Queues, id: nat, key: string)
    requires key in q.chains && ChainOk(q, key) && id !in q.ever && q.links.Keys <= q.ever && q.due.None?
    ensures ChainOk(Arrive(q, id, key), key)
  {
    var q', chain := Arrive(q, id, key), At(q.chains, key);
    LinkedSnoc(q.links, chain, id);
    hide Linked;
    forall i | 0 <= i < |chain|
      ensures Member(q, key, chain[i]) && Member(q', key, chain[i]) && chain[i] != id
    {
    }
    assert Member(q', key, id);
  }

  // ---- The stacked begin ----

  lemma BeginKeepsOk(q: Queues)
    requires Ok(q) && q.due.Some?
    ensures Ok(BeginDue(q))
  {
    var q' := BeginDue(q);
    DueIsFirst(q);
    assert q'.due.None? && q'.links == q.links && q'.ever == q.ever && q'.phases.Keys == q.phases.Keys;
    assert q'.requests == q.requests && q'.chains == q.chains && q'.keys == q.keys;
    hide ChainOk, RequestOk, HandlerOk, OrderOk, BeginDue;
    forall k | k in q'.chains
      ensures ChainOk(q', k)
    {
      BegunChain(q, k);
    }
    forall i
      ensures i in q'.requests ==> RequestOk(q', i)
      ensures i in q'.keys ==> HandlerOk(q', i)
    {
      BegunHandler(q, i);
    }
    forall k: string
      ensures OrderOk(q', k)
    {
      BegunOrder(q, k);
    }
  }

  lemma BegunHandler(q: Queues, i: nat)
    requires Ok(q) && q.due.Some?
    ensures i in q.requests ==> RequestOk(BeginDue(q), i)
    ensures i in q.keys ==> HandlerOk(BeginDue(q), i)
  {
    DueIsFirst(q);
    assert i in q.requests ==> RequestOk(q, i);
    assert i in q.keys ==> HandlerOk(q, i);
    hide Ok;
  }

  lemma BegunOrder(q: Queues, k: string)
    requires q.due.Some? && OrderOk(q, k)
    ensures OrderOk(BeginDue(q), k)
  {
  }

  lemma BegunChain(q: Queues, k: string)
    requires Ok(q) && q.due.Some? && k in q.chains
    ensures ChainOk(BeginDue(q), k)
  {
    var q', id := BeginDue(q), q.due.value;
    DueIsFirst(q);
    var key := q.keys[id];
    assert ChainOk(q, k);
    hide Ok;
    if k == key {
      var chain := q.chains[key];
      forall i | 0 <= i < |chain|
        ensures Member(q, key, chain[i]) && Member(q', key, chain[i])
      {
      }
    } else {
      hide ChainOk;
      ChainFrame(q, q', k);
    }
  }

  // ---- Finishing ----

  lemma {:induction false} WithoutAbsent(chain: seq<nat>, id: nat)
    requires id !in chain
    ensures Without(chain, id) == chain
  {
    if chain != [] {
      WithoutAbsent(chain[1..], id);
    }
  }

  lemma WithoutFirst(chain: seq<nat>, id: nat)
    requires chain != [] && chain[0] == id && NoRepeats(chain)
    ensures Without(chain, id) == chain[1..]
  {
    WithoutAbsent(chain[1..], id);
  }

  /** What a finished handler leaves: its chain without it, whose new first handler is due. */
  lemma FinishEffect(q: Queues, id: nat)
    requires Ok(q) && id in q.requests && IsIn(q, id, AtWork) && q.due.None?
    ensures RequestOk(q, id)
    ensures var key, q' := q.keys[id], Finish(q, id);
            var chain := q.chains[key];
            && chain[0] == id && At(q'.chains, key) == chain[1..]
            && (key in q'.chains ==> chain[1..] != [])
            && q'.due == if chain[1..] == [] then None else Some(chain[1])
  {
    WorkingIsFirst(q, id);
    var key := q.keys[id];
    var chain := q.chains[key];
    assert ChainOk(q, key);
    WithoutFirst(chain, id);
    if |chain| > 1 {
      assert q.links[chain[0]] == chain[1] && Member(q, key, chain[1]);
    }
  }

  lemma FinishKeepsOk(q: Queues, id: nat)
    requires Ok(q) && id in q.requests && IsIn(q, id, AtWork) && q.due.None?
    ensures id in q.keys && Ok(Finish(q, id))
  {
    FinishEffect(q, id);
    FinishRequests(q, id);
    var q' := Finish(q, id);
    assert q'.links == q.links && q'.ever == q.ever && q'.phases.Keys == q'.keys.Keys;
    assert DueOk(q') by {
      FinishDue(q, id);
    }
    hide ChainOk, OrderOk, HandlerOk, RequestOk, DueOk, Finish;
    forall k | k in q'.chains
      ensures ChainOk(q', k)
    {
      FinishChain(q, id, k);
    }
    forall k: string
      ensures OrderOk(q', k)
    {
      FinishOrder(q, id, k);
    }
  }

  lemma FinishDue(q: Queues, id: nat)
    requires Ok(q) && id in q.requests && IsIn(q, id, AtWork) && q.due.None? && id in q.keys
    ensures DueOk(Finish(q, id))
  {
    FinishEffect(q, id);
    var key := q.keys[id];
    var chain := q.chains[key];
    assert ChainOk(q, key);
    if |chain| > 1 {
      assert Member(q, key, chain[1]);
    }
  }

  lemma FinishOrder(q: Queues, id: nat, k: string)
    requires Ok(q) && id in q.requests && IsIn(q, id, AtWork) && q.due.None? && id in q.keys
    ensures OrderOk(Finish(q, id), k)
  {
    assert OrderOk(q, k);
    hide Ok;
    OtherKeys(q, id, k);
    if k == q.keys[id] {
      FinishEffect(q, id);
      hide Without;
      FirstMoves(At(q.arrived, k), At(q.departed, k), At(q.chains, k));
    }
  }

  lemma FirstMoves(arrived: seq<nat>, departed: seq<nat>, chain: seq<nat>)
    requires arrived == departed + chain && chain != []
    ensures arrived == (departed + [chain[0]]) + chain[1..]
  {
  }

  lemma OtherKeys(q: Queues, id: nat, k: string)
    requires id in q.keys
    ensures k != q.keys[id] ==> At(Finish(q, id).chains, k) == At(q.chains, k)
    ensures At(Finish(q, id).departed, k) == if k == q.keys[id] then At(q.departed, k) + [id] else At(q.departed, k)
  {
  }

  lemma FinishChain(q: Queues, id: nat, k: string)
    requires Ok(q) && id in q.requests && IsIn(q, id, AtWork) && q.due.None? && id in q.keys
    requires k in Finish(q, id).chains
    ensures ChainOk(Finish(q, id), k)
  {
    hide Ok, ChainOk;
    FinishEffect(q, id);
    var q', key := Finish(q, id), q.keys[id];
    OneChain(q, key);
    if k == key {
      ShorterChain(q, q', key);
    } else {
      OneChain(q, k);
      SecondIsMember(q, key);
      ChainFrame(q, q', k);
    }
  }

  lemma SecondIsMember(q: Queues, key: string)
    requires key in q.chains && ChainOk(q, key)
    ensures |q.chains[key]| > 1 ==> Member(q, key, q.chains[key][1])
  {
  }

  lemma ShorterChain(q: Queues, q': Queues, key: string)
    requires key in q.chains && ChainOk(q, key) && key in q'.chains && q'.chains[key] == q.chains[key][1..]
    requires q'.chains[key] != [] && q'.due == Some(q.chains[key][1]) && q'.links == q.links && q.due.None?
    requires q'.keys == q.keys && q'.ever == q.ever
    requires q'.requests == q.requests - {q.chains[key][0]}
    requires forall i :: i in q.phases && i != q.chains[key][0] ==> i in q'.phases && q'.phases[i] == q.phases[i]
    ensures ChainOk(q', key)
  {
    var chain, rest := q.chains[key], q'.chains[key];
    forall i | 0 <= i < |rest|
      ensures rest[i] == chain[i + 1] && rest[i] != chain[0]
      ensures IsIn(q', rest[i], NotBegun) && Member(q', key, rest[i])
    {
      assert Member(q, key, chain[i + 1]) && IsIn(q, chain[i + 1], NotBegun);
    }
  }

  lemma FinishRequests(q: Queues, id: nat)
    requires Ok(q) && id in q.requests && IsIn(q, id, AtWork) && q.due.None? && id in q.keys
    ensures forall i :: i in Finish(q, id).requests ==> RequestOk(Finish(q, id), i)
    ensures forall i :: i in Finish(q, id).keys ==> HandlerOk(Finish(q, id), i)
  {
    FinishEffect(q, id);
    var q', key := Finish(q, id), q.keys[id];
    var chain := q.chains[key];
    forall i | i in q'.requests
      ensures RequestOk(q', i)
    {
      assert RequestOk(q, i);
      if q.keys[i] == key {
        var j :| 0 <= j < |chain| && chain[j] == i;
        assert chain[1..][j - 1] == i;
      }
    }
    forall i | i in q'.keys
      ensures HandlerOk(q', i)
    {
      assert HandlerOk(q, i);
    }
  }

  // ---- Deletion ----

  /** Deletion takes a handler that is over out of what exists, and touches no request and no chain. */
  lemma DeleteEffect(q: Queues, id: nat)
    requires Ok(q) && id in q.keys && IsIn(q, id, Over)
    ensures var q' := Delete(q, id);
            && id !in q'.keys && id !in q'.phases && q'.requests == q.requests && q'.chains == q.chains
            && forall i :: i in q.keys && i != id ==> i in q'.keys && q'.keys[i] == q.keys[i] && q'.phases[i] == q.phases[i]
    ensures forall key :: key in q.chains ==> id !in q.chains[key]
  {
    forall key | key in q.chains
      ensures id !in q.chains[key]
    {
      assert ChainOk(q, key);
    }
  }

  lemma DeleteKeepsOk(q: Queues, id: nat)
    requires Ok(q) && id in q.keys && IsIn(q, id, Over) && q.due.None?
    ensures Ok(Delete(q, id))
  {
    var q' := Delete(q, id);
    assert q'.due.None? && q'.links == q.links && q'.ever == q.ever && q'.requests == q.requests;
    hide ChainOk, RequestOk;
    forall k | k in q'.chains
      ensures ChainOk(q', k)
    {
      DeleteChain(q, id, k);
    }
    forall i | i in q'.requests
      ensures RequestOk(q', i)
    {
      DeleteRequest(q, id, i);
    }
    forall i | i in q'.keys
      ensures HandlerOk(q', i)
    {
      assert HandlerOk(q, i);
    }
    forall k: string
      ensures OrderOk(q', k)
    {
      assert OrderOk(q, k);
    }
  }

  lemma DeleteRequest(q: Queues, id: nat, i: nat)
    requires Ok(q) && id in q.keys && IsIn(q, id, Over) && i in q.requests
    ensures RequestOk(Delete(q, id), i)
  {
    assert RequestOk(q, i);
    OverIsNoMember(q, i);
  }

  lemma DeleteChain(q: Queues, id: nat, k: string)
    requires Ok(q) && id in q.keys && IsIn(q, id, Over) && k in q.chains
    ensures ChainOk(Delete(q, id), k)
  {
    hide Ok, ChainOk;
    OneChain(q, k);
    if id in q.requests {
      OverIsNoMember(q, id);
    }
    ChainFrame(q, Delete(q, id), k);
  }

  lemma OverIsNoMember(q: Queues, id: nat)
    requires Ok(q) && id in q.requests
    ensures !IsIn(q, id, Over)
  {
    assert RequestOk(q, id);
    var chain := q.chains[q.keys[id]];
    assert ChainOk(q, q.keys[id]);
    var i :| 0 <= i < |chain| && chain[i] == id;
    assert i > 0 ==> IsIn(q, chain[i], NotBegun);
  }

  // ---- What the invariant means ----

  /**
    requests_ is the disjoint union of the chains, no empty chain is stored, only the first of
    a chain has begun, and for each key handlers finish in the order in which they arrived.
   */
  lemma ChainsPartitionRequests(q: Queues, id: nat, key: string)
    requires Ok(q)
    ensures id in At(q.chains, key) <==> id in q.requests && q.keys[id] == key
    ensures key in q.chains ==> q.chains[key] != []
    ensures id in At(q.chains, key) && id != At(q.chains, key)[0] ==> IsIn(q, id, NotBegun)
    ensures q.due.None? && At(q.chains, key) != [] ==> IsIn(q, At(q.chains, key)[0], AtWork)
    ensures At(q.departed, key) <= At(q.arrived, key)
    ensures id in q.requests <==> IsIn(q, id, NotBegun) || IsIn(q, id, AtWork)
    ensures id in q.requests ==> id in q.keys && q.keys[id] in q.chains
    ensures q.phases.Keys == q.keys.Keys
  {
    assert OrderOk(q, key);
    if id in q.keys {
      assert HandlerOk(q, id);
    }
    if id in q.requests {
      assert RequestOk(q, id);
      OverIsNoMember(q, id);
      var k := q.keys[id];
      assert ChainOk(q, k);
    }
    if key in q.chains {
      assert ChainOk(q, key);
      if id in q.chains[key] {
        var i :| 0 <= i < |q.chains[key]| && q.chains[key][i] == id;
        assert Member(q, key, q.chains[key][i]);
      }
    }
  }
}
