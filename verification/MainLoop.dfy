/**
  The main loop's own code over its dictionaries, each handler of it proved to
  make exactly the move the state machine makes.
*/
module MainLoop {
  import opened Pools
  import opened RuntimeLoop
  import opened Wrappers

  class MainLoop {
    const pools: RuntimePools
    var handlerPatterns: map<Rid, Pattern>
    var threads: seq<Thread>
    var terminalClaims: map<Rid, nat>
    var cancelledRequests: set<Rid>
    var events: seq<Event>
    var idle: bool
    ghost var setters: nat
    ghost var asked: map<Rid, Pattern>
    ghost var started: set<Rid>
    ghost var terminals: multiset<Rid>

    ghost function State(): Loop
      reads this, pools
    {
      Loop(pools.state, pools.waiting, handlerPatterns, threads, terminalClaims, cancelledRequests, events, setters,
           idle,
           asked, started, terminals)
    }

    ghost predicate Valid()
      reads this, pools
    {
      pools.Valid() && LineInv(State(), pools.chains)
    }

    constructor (pools: RuntimePools)
      requires pools.Valid() && pools.state.queue == []
      ensures Valid() && this.pools == pools && State() == AtRest(pools.state)
    {
      this.pools := pools;
      handlerPatterns, threads, terminalClaims, cancelledRequests, events, idle := map[], [], map[], {}, [], false;
      setters, asked, started, terminals := 0, map[], {}, multiset{};
      new;
      assert pools.waiting.Keys == {};
      assert pools.waiting == map[];
    }

    method SpawnHandler(request: Request)
      modifies this`handlerPatterns, this`threads, this`terminalClaims, this`started
      ensures State() == Spawn(old(State()), request.rid, request.pattern)
    {
      terminalClaims := terminalClaims[request.rid := |threads|];
      threads := threads + [Thread(request.rid, Working, Unclaimed)];
      started := started + {request.rid};
      handlerPatterns := handlerPatterns[request.rid := request.pattern];
    }

    /** Starts everyone in line who can go, in order of arrival; it ends, because the line gets shorter. */
    method DrainLine()
      requires Valid()
      modifies this, pools
      ensures Valid() && State() == DrainAll(old(State()), pools.chains)
    {
      while true
        invariant Valid()
        invariant DrainAll(State(), pools.chains) == DrainAll(old(State()), pools.chains)
        decreases |pools.state.queue|
      {
        ghost var before := State();
        RuntimeLoop.DrainLine(before, pools.chains);
        var queued := pools.AdmitOne();
        if queued.None? {
          idle := true;
          return;
        }
        NextIsHeld(before, pools.chains);
        AdmitNextShrinks(before.pools);
        SpawnHandler(queued.value);
        assert State() == Drained(before);
      }
    }

    method HandleRequest(request: Request)
      requires Valid() && request.pattern in pools.chains
      modifies this`handlerPatterns, this`threads, this`terminalClaims, this`started, pools
      ensures Valid() && State() == Requested(old(State()), pools.chains, request.rid, request.pattern)
    {
      RequestLine(State(), pools.chains, request.rid, request.pattern);
      var arrived := pools.AcceptRequest(request);
      if arrived.Running? {
        SpawnHandler(request);
      }
    }

    /** The chain on record under the id, if there is one, gets its slots back. */
    method ReleaseChain(rid: Rid)
      requires Valid() && KnownInv(State(), pools.chains) && PoolBound(State(), pools.chains)
      modifies this`handlerPatterns, pools
      ensures Valid() && handlerPatterns == old(handlerPatterns) - {rid} && pools.waiting == old(pools.waiting)
      ensures pools.state == if rid in old(handlerPatterns) && old(handlerPatterns)[rid] in pools.chains
                             then Release(old(pools.state), pools.chains[old(handlerPatterns)[rid]])
                             else old(pools.state)
    {
      hide Release, PoolBound;
      if rid in handlerPatterns {
        forall i | 0 <= i < |pools.state.pools| && pools.state.pools[i].name in pools.chains[handlerPatterns[rid]]
          ensures pools.state.pools[i].active > 0
        {
          ReleaseIsCovered(State(), pools.chains, rid, i);
        }
        pools.ReleasePattern(handlerPatterns[rid]);
        handlerPatterns := handlerPatterns - {rid};
      }
    }

    /** A done handler's slots go back; the pools always have them to give. */
    method HandleDone(rid: Rid)
      requires Valid() && KnownInv(State(), pools.chains) && PoolBound(State(), pools.chains)
      modifies this, pools
      ensures Valid() && State() == Finished(old(State()), pools.chains, rid)
    {
      hide KnownInv, PoolBound, Release;
      ReleaseChain(rid);
      terminalClaims := terminalClaims - {rid};
      if rid in cancelledRequests {
        cancelledRequests := cancelledRequests - {rid};
        terminals := terminals + multiset{rid};
      }
    }

    /** Queued: out of the line, with its ERR.  Running and unclaimed: marked.  Otherwise nothing. */
    method HandleCancel(rid: Rid) returns (ghost pick: nat)
      requires Valid()
      modifies this, pools
      ensures IsWaiting(old(State()), rid) ==> WaitsAt(old(State()), pick, rid)
      ensures Valid() && State() == Cancelled(old(State()), rid, pick)
    {
      ghost var before := State();
      var removed, ticket := pools.RemoveQueued(rid);
      pick := ticket;
      if removed.Some? {
        terminals := terminals + multiset{rid};
      } else if rid in terminalClaims && terminalClaims[rid] < |threads|
                && threads[terminalClaims[rid]].claim == Unclaimed {
        var thread := terminalClaims[rid];
        threads := threads[thread := threads[thread].(claim := ByCancel)];
        cancelledRequests := cancelledRequests + {rid};
      }
    }
  }
}
