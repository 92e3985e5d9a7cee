/**
  The life of a request in the runtime, over every run in which each request comes
  under an id of its own: where it is at every moment, and its one terminal.
*/
module RequestLives {
  import opened Pools
  import opened RuntimeLoop
  import opened Wrappers

  // Everything the machine knows of one request.  `evs` are the events under way, the one being handled included.
  datatype Card = Card(asked: bool, pending: nat, waiting: bool, running: bool, thread: Option<Thread>,
                       cancelled: bool, done: nat, started: bool, terminals: nat)

  function CardOf(l: Loop, evs: multiset<Event>, r: Rid): Card {
    Card(r in l.asked, if r in l.asked then evs[Req(r, l.asked[r])] else 0, IsWaiting(l, r), r in l.patterns,
         if r in l.claims && l.claims[r] < |l.threads| then Some(l.threads[l.claims[r]]) else None,
         r in l.cancelled, evs[Done(r)], r in l.started, l.terminals[r])
  }

  /** How many terminals a request must have had: one once its handler has sent it, and one once it is over. */
  function Due(c: Card): nat {
    match c.thread
    case Some(t) => if t.claim == ByHandler && t.phase != Sending then 1 else 0
    case None => if c.asked && c.pending == 0 && !c.waiting then 1 else 0
  }

  predicate ThreadOk(t: Thread) {
    match t.phase
    case Working => t.claim != ByHandler
    case Sending => t.claim == ByHandler
    case Reporting => t.claim != Unclaimed
    case Reported => t.claim != Unclaimed
  }

  /** A request is asked for once, is in one place at a time, and has had exactly the terminals due. */
  predicate CardOk(c: Card) {
    (c.running <==> c.thread.Some?) && (c.thread.Some? ==> ThreadOk(c.thread.value))
    && (c.cancelled <==> c.thread.Some? && c.thread.value.claim == ByCancel)
    && c.done == (if c.thread.Some? && c.thread.value.phase == Reported then 1 else 0)
    && c.pending + (if c.waiting then 1 else 0) + (if c.running then 1 else 0) <= 1
    && (c.waiting || c.running || c.started ==> c.asked)
    && (c.running ==> c.started) && (c.pending > 0 || c.waiting ==> !c.started)
    && c.terminals == Due(c)
  }

  predicate OneTicketEach(waiting: map<nat, Request>) {
    forall t, u :: t in waiting && u in waiting && t != u ==> waiting[t].rid != waiting[u].rid
  }

  /** A request's claim is its handler's, and a handler that has not reported is its request's. */
  predicate Owned(l: Loop) {
    (forall r :: r in l.claims ==> l.claims[r] < |l.threads| && l.threads[l.claims[r]].rid == r)
    && (forall i :: 0 <= i < |l.threads| && l.threads[i].phase != Reported ==>
          l.threads[i].rid in l.claims && l.claims[l.threads[i].rid] == i)
  }

  /** A request under way is the one that was asked for. */
  ghost predicate Expected(l: Loop, evs: multiset<Event>) {
    forall e: Event :: evs[e] > 0 && e.Req? ==> e.rid in l.asked && l.asked[e.rid] == e.pattern
  }

  ghost predicate LifeInv(l: Loop, evs: multiset<Event>) {
    OneTicketEach(l.waiting) && Owned(l) && Expected(l, evs) && forall r :: CardOk(CardOf(l, evs, r))
  }

  /** The request that comes has an id no request had before. */
  predicate Fresh(l: Loop, step: Step) {
    step.FrameArrives? && step.e.Req? ==> step.e.rid !in l.asked
  }

  predicate AllFresh(l: Loop, chains: Chains, steps: seq<Step>)
    requires CanRun(l, chains, steps)
    decreases |steps|
  {
    steps == [] || (Fresh(l, steps[0]) && AllFresh(Apply(l, chains, steps[0]), chains, steps[1..]))
  }

  // ---- One request at a time ----------------------------------------------------------------------

  /** One request's card changes to another that is in order. */
  lemma OneCard(l: Loop, after: Loop, evs: multiset<Event>, later: multiset<Event>, rid: Rid)
    requires LifeInv(l, evs) && OneTicketEach(after.waiting) && Owned(after) && Expected(after, later)
    requires forall r :: r != rid ==> CardOf(after, later, r) == CardOf(l, evs, r)
    requires CardOk(CardOf(after, later, rid))
    ensures LifeInv(after, later)
  {
  }

  lemma WaitingLess(l: Loop, after: Loop, ticket: nat)
    requires OneTicketEach(l.waiting) && ticket in l.waiting && after.waiting == l.waiting - {ticket}
    ensures OneTicketEach(after.waiting)
    ensures !IsWaiting(after, l.waiting[ticket].rid) && IsWaiting(l, l.waiting[ticket].rid)
    ensures forall r :: r != l.waiting[ticket].rid ==> (IsWaiting(after, r) <==> IsWaiting(l, r))
  {
    forall r | r != l.waiting[ticket].rid && IsWaiting(l, r)
      ensures IsWaiting(after, r)
    {
      var t :| t in l.waiting && l.waiting[t].rid == r;
      assert t in after.waiting;
    }
  }

  lemma WaitingMore(l: Loop, after: Loop, ticket: nat, request: Request)
    requires OneTicketEach(l.waiting) && ticket !in l.waiting && after.waiting == l.waiting[ticket := request]
    requires !IsWaiting(l, request.rid)
    ensures OneTicketEach(after.waiting) && IsWaiting(after, request.rid)
    ensures forall r :: r != request.rid ==> (IsWaiting(after, r) <==> IsWaiting(l, r))
  {
    assert after.waiting[ticket].rid == request.rid;
    forall r | r != request.rid && IsWaiting(l, r)
      ensures IsWaiting(after, r)
    {
      var t :| t in l.waiting && l.waiting[t].rid == r;
      assert t in after.waiting && after.waiting[t].rid == r;
    }
  }

  lemma SamePlaces(l: Loop, after: Loop)
    requires after.waiting == l.waiting
    ensures forall r :: IsWaiting(after, r) <==> IsWaiting(l, r)
  {
  }

  /** A request starts under an id with no claim on record. */
  lemma SpawnOwned(l: Loop, rid: Rid, pattern: Pattern)
    requires Owned(l) && rid !in l.claims
    ensures Owned(Spawn(l, rid, pattern))
    ensures forall evs: multiset<Event>, r: Rid :: r != rid ==>
              CardOf(Spawn(l, rid, pattern), evs, r) == CardOf(l, evs, r)
  {
    var after := Spawn(l, rid, pattern);
    assert forall i :: 0 <= i < |l.threads| ==> after.threads[i] == l.threads[i];
    SamePlaces(l, after);
  }

  /** A request in line starts. */
  lemma StartWaiting(l: Loop, evs: multiset<Event>, pools: State, ticket: nat)
    requires LifeInv(l, evs) && ticket in l.waiting
    ensures var r := l.waiting[ticket];
            r.rid !in l.patterns
            && LifeInv(Spawn(l.(pools := pools, waiting := l.waiting - {ticket}), r.rid, r.pattern), evs)
  {
    var r := l.waiting[ticket];
    var out := l.(pools := pools, waiting := l.waiting - {ticket});
    var after := Spawn(out, r.rid, r.pattern);
    WaitingLess(l, after, ticket);
    WaitingLess(l, out, ticket);
    assert CardOk(CardOf(l, evs, r.rid));
    SpawnOwned(out, r.rid, r.pattern);
    hide Spawn;
    OneCard(l, after, evs, evs, r.rid);
  }

  lemma ExpectedLess(l: Loop, evs: multiset<Event>, e: Event)
    requires Expected(l, evs + multiset{e})
    ensures Expected(l, evs)
  {
    forall f: Event | evs[f] > 0 && f.Req?
      ensures f.rid in l.asked && l.asked[f.rid] == f.pattern
    {
      assert (evs + multiset{e})[f] > 0;
    }
  }

  /** A request that just came starts. */
  lemma StartPending(l: Loop, evs: multiset<Event>, pools: State, rid: Rid, pattern: Pattern)
    requires LifeInv(l, evs + multiset{Req(rid, pattern)})
    ensures rid !in l.patterns && LifeInv(Spawn(l.(pools := pools), rid, pattern), evs)
  {
    var with := evs + multiset{Req(rid, pattern)};
    assert with[Req(rid, pattern)] > 0;
    ExpectedLess(l, evs, Req(rid, pattern));
    assert CardOk(CardOf(l, with, rid));
    SpawnOwned(l.(pools := pools), rid, pattern);
    OneCard(l, Spawn(l.(pools := pools), rid, pattern), with, evs, rid);
  }

  /** A request that just came goes in line. */
  lemma QueuePending(l: Loop, evs: multiset<Event>, pools: State, ticket: nat, rid: Rid, pattern: Pattern)
    requires LifeInv(l, evs + multiset{Req(rid, pattern)}) && ticket !in l.waiting
    ensures LifeInv(l.(pools := pools, waiting := l.waiting[ticket := Request(rid, pattern)]), evs)
  {
    var with := evs + multiset{Req(rid, pattern)};
    var after := l.(pools := pools, waiting := l.waiting[ticket := Request(rid, pattern)]);
    assert with[Req(rid, pattern)] > 0;
    ExpectedLess(l, evs, Req(rid, pattern));
    assert CardOk(CardOf(l, with, rid));
    WaitingMore(l, after, ticket, Request(rid, pattern));
    OneCard(l, after, with, evs, rid);
  }

  lemma RequestLife(l: Loop, chains: Chains, evs: multiset<Event>, rid: Rid, pattern: Pattern)
    requires LineInv(l, chains) && LifeInv(l, evs + multiset{Req(rid, pattern)}) && pattern in chains
    ensures LifeInv(Requested(l, chains, rid, pattern), evs)
  {
    match Arrive(l.pools, chains[pattern])
    case Entered(pools) =>
      hide Arrive, LifeInv, LineInv, Spawn;
      StartPending(l, evs, pools, rid, pattern);
    case Queued(pools, ticket) =>
      assert ticket == l.pools.next;
      hide Arrive, LifeInv, LineInv;
      QueuePending(l, evs, pools, ticket, rid, pattern);
  }

  lemma DrainLife(l: Loop, chains: Chains, evs: multiset<Event>)
    requires LineInv(l, chains) && LifeInv(l, evs)
    ensures LifeInv(Drained(l), evs)
  {
    hide LineInv;
    if NextUp(l.pools).Some? {
      NextIsHeld(l, chains);
      var (ticket, pools) := AdmitNext(l.pools).value;
      hide LifeInv, Spawn;
      StartWaiting(l, evs, pools, ticket);
    } else {
      SameLife(l, l.(idle := true), evs, evs);
    }
  }

  /** Everything but the pools and the loop's own fields is untouched. */
  lemma SameLife(l: Loop, after: Loop, evs: multiset<Event>, fewer: multiset<Event>)
    requires LifeInv(l, evs)
    requires forall r: Rid :: evs[Done(r)] == fewer[Done(r)]
    requires forall r: Rid, p: Pattern :: evs[Req(r, p)] == fewer[Req(r, p)]
    requires after == l.(pools := after.pools, events := after.events, idle := after.idle, setters := after.setters)
    ensures LifeInv(after, fewer)
  {
    SamePlaces(l, after);
    forall r
      ensures CardOf(after, fewer, r) == CardOf(l, evs, r)
    {
    }
    forall e: Event | fewer[e] > 0 && e.Req?
      ensures e.rid in l.asked && l.asked[e.rid] == e.pattern
    {
      assert evs[Req(e.rid, e.pattern)] == fewer[Req(e.rid, e.pattern)];
    }
  }

  /** A cancel finds its request in line: it leaves, with its one terminal, and never starts. */
  lemma CancelWaiting(l: Loop, evs: multiset<Event>, ticket: nat)
    requires LifeInv(l, evs) && ticket in l.waiting
    ensures LifeInv(Cancelled(l, l.waiting[ticket].rid, ticket), evs)
  {
    var rid := l.waiting[ticket].rid;
    var after := Cancelled(l, rid, ticket);
    WaitingLess(l, after, ticket);
    assert CardOk(CardOf(l, evs, rid));
    OneCard(l, after, evs, evs, rid);
  }

  /** A cancel finds its request running, or nowhere. */
  lemma CancelRunning(l: Loop, evs: multiset<Event>, rid: Rid, pick: nat)
    requires LifeInv(l, evs) && !WaitsAt(l, pick, rid)
    ensures LifeInv(Cancelled(l, rid, pick), evs)
  {
    var after := Cancelled(l, rid, pick);
    SamePlaces(l, after);
    assert CardOk(CardOf(l, evs, rid));
    OneCard(l, after, evs, evs, rid);
  }

  /** A handler has reported: its request is over, with the one terminal due to it. */
  lemma FinishLife(l: Loop, chains: Chains, evs: multiset<Event>, rid: Rid)
    requires LifeInv(l, evs + multiset{Done(rid)})
    ensures LifeInv(Finished(l, chains, rid), evs)
  {
    var after := Finished(l, chains, rid);
    SamePlaces(l, after);
    ExpectedLess(l, evs, Done(rid));
    assert CardOk(CardOf(l, evs + multiset{Done(rid)}, rid));
    assert Owned(after);
    OneCard(l, after, evs + multiset{Done(rid)}, evs, rid);
  }

  lemma HandleLife(l: Loop, chains: Chains, evs: multiset<Event>, e: Event, pick: nat)
    requires LineInv(l, chains) && LifeInv(l, evs + multiset{e}) && (e.Req? ==> e.pattern in chains)
    ensures LifeInv(Handled(l, chains, e, pick), evs)
  {
    match e
    case Req(rid, pattern) =>
      hide LifeInv, LineInv;
      RequestLife(l, chains, evs, rid, pattern);
    case Cancel(rid) =>
      SameLife(l, l, evs + multiset{e}, evs);
      hide LifeInv, LineInv, Cancelled;
      if WaitsAt(l, pick, rid) {
        CancelWaiting(l, evs, pick);
      } else {
        CancelRunning(l, evs, rid, pick);
      }
    case Done(rid) =>
      hide LifeInv, LineInv;
      FinishLife(l, chains, evs, rid);
    case Configure(name, capacity) =>
      SameLife(l, Handled(l, chains, e, pick), evs + multiset{e}, evs);
    case PoolsChanged =>
      SameLife(l, l, evs + multiset{e}, evs);
    case Other =>
      SameLife(l, l, evs + multiset{e}, evs);
  }

  /** A handler's step moves its own request's card only. */
  lemma ThreadLife(l: Loop, after: Loop, i: nat)
    requires LifeInv(l, multiset(l.events)) && i < |l.threads| && l.threads[i].phase != Reported
    requires after == l.(threads := after.threads, events := after.events, terminals := after.terminals)
    requires |after.threads| == |l.threads| && after.threads[i].rid == l.threads[i].rid
    requires forall j :: 0 <= j < |l.threads| && j != i ==> after.threads[j] == l.threads[j]
    requires forall r :: r != l.threads[i].rid ==> after.terminals[r] == l.terminals[r]
    requires forall e: Event :: e != Done(l.threads[i].rid) ==> multiset(after.events)[e] == multiset(l.events)[e]
    requires CardOk(CardOf(after, multiset(after.events), l.threads[i].rid))
    ensures LifeInv(after, multiset(after.events))
  {
    SamePlaces(l, after);
    OneCard(l, after, multiset(l.events), multiset(after.events), l.threads[i].rid);
  }

  lemma HandlerLife(l: Loop, chains: Chains, step: Step)
    requires LifeInv(l, multiset(l.events)) && Enabled(l, chains, step)
    requires step.HandlerEnds? || step.HandlerSends? || step.HandlerReports?
    ensures LifeInv(Apply(l, chains, step), multiset(Apply(l, chains, step).events))
  {
    hide Drained, Handled, IsWaiting;
    var after := Apply(l, chains, step);
    var rid := l.threads[step.thread].rid;
    SamePlaces(l, after);
    assert CardOk(CardOf(l, multiset(l.events), rid));
    assert rid in l.claims && l.claims[rid] == step.thread;
    assert CardOk(CardOf(after, multiset(after.events), rid)) by {
      hide LifeInv;
    }
    hide LifeInv, CardOk, CardOf;
    ThreadLife(l, after, step.thread);
  }

  lemma ArrivalLife(l: Loop, chains: Chains, e: Event)
    requires LifeInv(l, multiset(l.events)) && Enabled(l, chains, FrameArrives(e)) && Fresh(l, FrameArrives(e))
    ensures var after := Apply(l, chains, FrameArrives(e));
            LifeInv(after, multiset(after.events))
  {
    var after := Apply(l, chains, FrameArrives(e));
    if e.Req? {
      SamePlaces(l, after);
      assert CardOk(CardOf(l, multiset(l.events), e.rid));
      assert multiset(l.events)[e] == 0;
      OneCard(l, after, multiset(l.events), multiset(after.events), e.rid);
    } else {
      SameLife(l, after, multiset(l.events), multiset(after.events));
    }
  }

  lemma PoppedEvents(l: Loop)
    requires l.events != []
    ensures multiset(l.events) == multiset(l.events[1..]) + multiset{l.events[0]}
  {
    assert l.events == [l.events[0]] + l.events[1..];
  }

  lemma PopLife(l: Loop, chains: Chains, pick: nat)
    requires LineInv(l, chains) && KnownInv(l, chains) && LifeInv(l, multiset(l.events))
    requires Enabled(l, chains, Handle(pick))
    ensures var after := Apply(l, chains, Handle(pick));
            LifeInv(after, multiset(after.events))
  {
    PoppedEvents(l);
    SameLife(l, Popped(l), multiset(l.events), multiset(l.events));
    hide LifeInv, Handled;
    HandleLife(Popped(l), chains, multiset(l.events[1..]), l.events[0], pick);
    KeepsEvents(Popped(l), chains, l.events[0], pick);
  }

  lemma StepLife(l: Loop, chains: Chains, step: Step)
    requires LineInv(l, chains) && KnownInv(l, chains) && LifeInv(l, multiset(l.events))
    requires Enabled(l, chains, step) && Fresh(l, step)
    ensures LifeInv(Apply(l, chains, step), multiset(Apply(l, chains, step).events))
  {
    hide LineInv, LifeInv, KnownInv, NextUp, Admitted, Handled;
    match step
    case FrameArrives(e) => ArrivalLife(l, chains, e);
    case HandlerEnds(_) => HandlerLife(l, chains, step);
    case HandlerSends(_) => HandlerLife(l, chains, step);
    case HandlerReports(_) => HandlerLife(l, chains, step);
    case LimitSet(_, _) =>
      SameLife(l, Apply(l, chains, step), multiset(l.events), multiset(l.events));
    case SetterPushes =>
      SameLife(l, Apply(l, chains, step), multiset(l.events), multiset(l.events + [PoolsChanged]));
    case Drain => DrainLife(l, chains, multiset(l.events));
    case Handle(pick) => PopLife(l, chains, pick);
  }

  // ---- Every fresh run ---------------------------------------------------------------------------

  /** Every step keeps every request in one place, with exactly the terminals due, as long as no id comes twice. */
  ghost predicate LivesInv(l: Loop, chains: Chains) {
    Inv(l, chains) && LifeInv(l, multiset(l.events))
  }

  lemma LivesStep(l: Loop, chains: Chains, step: Step)
    requires LivesInv(l, chains) && Enabled(l, chains, step) && Fresh(l, step)
    ensures LivesInv(Apply(l, chains, step), chains)
  {
    hide LineInv, KnownInv, PoolBound, WakeInv, LifeInv, Apply, Enabled, Fresh;
    StepInv(l, chains, step);
    StepLife(l, chains, step);
  }

  lemma {:induction false} LivesRun(l: Loop, chains: Chains, steps: seq<Step>)
    requires LivesInv(l, chains) && CanRun(l, chains, steps) && AllFresh(l, chains, steps)
    ensures LivesInv(Run(l, chains, steps), chains)
    decreases |steps|
  {
    hide Apply, Enabled, Fresh, LivesInv;
    if steps != [] {
      LivesStep(l, chains, steps[0]);
      LivesRun(Apply(l, chains, steps[0]), chains, steps[1..]);
    }
  }

  lemma ReachedLives(pools: State, chains: Chains, steps: seq<Step>, l: Loop)
    requires Reaches(pools, chains, steps, l) && AllFresh(AtRest(pools), chains, steps)
    ensures LivesInv(l, chains)
  {
    RestInv(pools, chains);
    LivesRun(AtRest(pools), chains, steps);
  }

  /** It came and is neither pending, nor in line, nor running. */
  predicate Ended(l: Loop, rid: Rid) {
    rid in l.asked && Req(rid, l.asked[rid]) !in l.events && !IsWaiting(l, rid) && rid !in l.patterns
  }

  /**
    Exactly one terminal, whatever the interleaving of handlers ending or failing,
    cancels however often repeated, and done events: never two, none before the
    request came, and one by the time it has ended.
  */
  lemma ExactlyOneTerminal(pools: State, chains: Chains, steps: seq<Step>, l: Loop, rid: Rid)
    requires Reaches(pools, chains, steps, l) && AllFresh(AtRest(pools), chains, steps)
    ensures l.terminals[rid] <= 1
    ensures rid !in l.asked || Req(rid, l.asked[rid]) in l.events || IsWaiting(l, rid) ==> l.terminals[rid] == 0
    ensures Ended(l, rid) ==> l.terminals[rid] == 1
  {
    ReachedLives(pools, chains, steps, l);
    CountsTerminals(l, rid);
  }

  lemma CountsTerminals(l: Loop, rid: Rid)
    requires LifeInv(l, multiset(l.events))
    ensures l.terminals[rid] <= 1
    ensures rid !in l.asked || Req(rid, l.asked[rid]) in l.events || IsWaiting(l, rid) ==> l.terminals[rid] == 0
    ensures Ended(l, rid) ==> l.terminals[rid] == 1
  {
    assert CardOk(CardOf(l, multiset(l.events), rid));
    if rid in l.asked {
      assert Req(rid, l.asked[rid]) in l.events <==> multiset(l.events)[Req(rid, l.asked[rid])] > 0;
    }
  }

  // ---- After the end ------------------------------------------------------------------------------

  /** A request that ended has ended for good, and nothing starts it or ends it again. */
  lemma EndedStays(l: Loop, chains: Chains, step: Step, rid: Rid)
    requires LivesInv(l, chains) && Enabled(l, chains, step) && Fresh(l, step) && Ended(l, rid)
    ensures Ended(Apply(l, chains, step), rid)
    ensures rid in Apply(l, chains, step).started <==> rid in l.started
  {
    hide LineInv, KnownInv, NextUp, Admitted, Handled;
    match step
    case Drain =>
      if NextUp(l.pools).Some? {
        NextIsHeld(l, chains);
        var ticket := NextUp(l.pools).value.ticket;
        assert IsWaiting(l, l.waiting[ticket].rid);
      }
      hide LivesInv;
    case Handle(pick) =>
      NextIsExpected(l);
      hide LivesInv;
      EndedHandled(l, chains, l.events[0], pick, rid);
    case _ =>
      hide LivesInv;
      SamePlaces(l, Apply(l, chains, step));
  }

  lemma NextIsExpected(l: Loop)
    requires LifeInv(l, multiset(l.events)) && l.events != []
    ensures l.events[0].Req? ==> l.events[0].rid in l.asked && l.asked[l.events[0].rid] == l.events[0].pattern
  {
    assert l.events[0] in multiset(l.events);
  }

  lemma EndedHandled(l: Loop, chains: Chains, e: Event, pick: nat, rid: Rid)
    requires Ended(l, rid) && l.events != [] && e == l.events[0]
    requires e.Req? ==> e.rid in l.asked && l.asked[e.rid] == e.pattern
    ensures var after := Handled(Popped(l), chains, e, pick);
            Ended(after, rid) && (rid in after.started <==> rid in l.started)
  {
    hide Release, SetCapacity, Leave, Arrive, NextUp, Take, WithoutTicket;
    assert e in l.events && forall x :: x in l.events[1..] ==> x in l.events;
    SamePlaces(l, Popped(l));
    var after := Handled(Popped(l), chains, e, pick);
    assert after.asked == l.asked && after.events == l.events[1..];
    assert e.Req? ==> e.rid != rid;
    assert !IsWaiting(after, rid);
  }

  lemma {:induction false} EndedForGood(l: Loop, chains: Chains, steps: seq<Step>, rid: Rid)
    requires LivesInv(l, chains) && CanRun(l, chains, steps) && AllFresh(l, chains, steps) && Ended(l, rid)
    ensures Ended(Run(l, chains, steps), rid) && Run(l, chains, steps).terminals[rid] == 1
    ensures rid in Run(l, chains, steps).started <==> rid in l.started
    decreases |steps|
  {
    hide Apply, Enabled, Fresh, Ended;
    if steps == [] {
      CountsTerminals(l, rid);
    } else {
      LivesStep(l, chains, steps[0]);
      EndedStays(l, chains, steps[0], rid);
      hide LivesInv;
      EndedForGood(Apply(l, chains, steps[0]), chains, steps[1..], rid);
    }
  }

  /**
    A request cancelled while it waits gets its one terminal there and then, and in
    no continuation of the run does its handler ever start.
  */
  lemma CancelledInLineNeverStarts(l: Loop, chains: Chains, rid: Rid, pick: nat, steps: seq<Step>)
    requires LivesInv(l, chains) && IsWaiting(l, rid) && l.events != [] && l.events[0] == Cancel(rid)
    requires Enabled(l, chains, Handle(pick))
    requires CanRun(Apply(l, chains, Handle(pick)), chains, steps)
    requires AllFresh(Apply(l, chains, Handle(pick)), chains, steps)
    ensures Apply(l, chains, Handle(pick)).terminals[rid] == 1
    ensures var end := Run(Apply(l, chains, Handle(pick)), chains, steps);
            rid !in end.started && end.terminals[rid] == 1 && Ended(end, rid)
  {
    var after := Apply(l, chains, Handle(pick));
    LivesStep(l, chains, Handle(pick));
    WaitingEnds(l, chains, rid, pick);
    CountsTerminals(after, rid);
    hide Apply, LivesInv;
    EndedForGood(after, chains, steps, rid);
  }

  lemma WaitingEnds(l: Loop, chains: Chains, rid: Rid, pick: nat)
    requires LifeInv(l, multiset(l.events)) && IsWaiting(l, rid) && l.events != [] && l.events[0] == Cancel(rid)
    requires Enabled(l, chains, Handle(pick))
    ensures var after := Apply(l, chains, Handle(pick));
            Ended(after, rid) && rid !in after.started
  {
    var after := Apply(l, chains, Handle(pick));
    assert CardOk(CardOf(l, multiset(l.events), rid));
    PoppedEvents(l);
    assert OneTicketEach(Popped(l).waiting);
    WaitingLess(Popped(l), after, pick);
    assert Req(rid, l.asked[rid]) in l.events[1..] <==> multiset(l.events[1..])[Req(rid, l.asked[rid])] > 0;
  }

  // ---- Fresh ids are apart ---------------------------------------------------------------------------

  /** Requests under ids of their own displace nobody, so their pools stay conserved. */
  lemma {:induction false} FreshIsConserved(l: Loop, chains: Chains, steps: seq<Step>)
    requires LivesInv(l, chains) && CanRun(l, chains, steps) && AllFresh(l, chains, steps)
    ensures NoneDisplaced(l, chains, steps)
    decreases |steps|
  {
    hide Apply, Enabled, Fresh, DisplacesAny;
    if steps != [] {
      LivesStep(l, chains, steps[0]);
      FreshStart(l, chains, steps[0]);
      hide LivesInv;
      FreshIsConserved(Apply(l, chains, steps[0]), chains, steps[1..]);
    }
  }

  lemma FreshStart(l: Loop, chains: Chains, step: Step)
    requires LivesInv(l, chains) && Enabled(l, chains, step)
    ensures !DisplacesAny(l, chains, step)
  {
    if Starting(l, chains, step).Some? {
      var rid := Starting(l, chains, step).value;
      assert CardOk(CardOf(l, multiset(l.events), rid));
      if step.Handle? {
        NextIsExpected(l);
        assert l.events[0] in multiset(l.events);
        hide LivesInv, Arrive;
      } else {
        var ticket := NextUp(l.pools).value.ticket;
        assert IsWaiting(l, l.waiting[ticket].rid);
        hide LivesInv, NextUp;
      }
    }
  }
}
