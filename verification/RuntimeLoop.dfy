/**
  The cartridge's main loop, its handler threads and the threads that move pool
  limits, as one state machine over every interleaving.
*/
module RuntimeLoop {
  import opened Pools
  import opened Wrappers

  type Chains = map<Pattern, seq<Name>>

  // ---- Who ends a request ---------------------------------------------------------------------

  datatype Claim = Unclaimed | ByHandler | ByCancel

  class TerminalClaim {
    var state: Claim

    constructor ()
      ensures state == Unclaimed
    {
      state := Unclaimed;
    }

    /** True for the first to ask, and only then. */
    method Take(claimant: Claim) returns (granted: bool)
      requires claimant != Unclaimed
      modifies this
      ensures granted == (old(state) == Unclaimed)
      ensures state == if granted then claimant else old(state)
    {
      if state != Unclaimed {
        return false;
      }
      state := claimant;
      return true;
    }
  }

  // ---- The machine ------------------------------------------------------------------------------

  // Working until its operation returns or throws; Sending its own terminal; Reporting that it is done; Reported.
  datatype Phase = Working | Sending | Reporting | Reported
  datatype Thread = Thread(rid: Rid, phase: Phase, claim: Claim)

  datatype Event = Req(rid: Rid, pattern: Pattern) | Cancel(rid: Rid) | Configure(name: Name, capacity: nat) | Other
                 | Done(rid: Rid) | PoolsChanged

  // `threads` is every handler ever started, with its claim; `claims` finds the claim a cancel of a request asks.
  // `asked` is every request that ever came, by its pattern; `terminals` counts the END and ERR frames submitted.
  datatype Loop = Loop(pools: State, waiting: map<nat, Request>, patterns: map<Rid, Pattern>,
                       threads: seq<Thread>, claims: map<Rid, nat>, cancelled: set<Rid>, events: seq<Event>,
                       setters: nat, idle: bool, asked: map<Rid, Pattern>, started: set<Rid>, terminals: multiset<Rid>)

  // Each lock-protected section of the runtime is one step.  A limit set from outside the loop is two:
  // the change, and later the event that wakes the loop.  `pick` is the place in line a cancel takes,
  // should several requests wait under its id.
  datatype Step =
    | FrameArrives(e: Event)
    | HandlerEnds(thread: nat)
    | HandlerSends(thread: nat)
    | HandlerReports(thread: nat)
    | LimitSet(name: Name, capacity: nat)
    | SetterPushes
    | Drain
    | Handle(pick: nat)

  predicate InPhase(l: Loop, thread: nat, phase: Phase) {
    thread < |l.threads| && l.threads[thread].phase == phase
  }

  predicate Enabled(l: Loop, chains: Chains, step: Step) {
    match step
    case FrameArrives(Req(_, pattern)) => pattern in chains
    case FrameArrives(e) => e.Cancel? || e.Configure? || e.Other?
    case HandlerEnds(thread) => InPhase(l, thread, Working)
    case HandlerSends(thread) => InPhase(l, thread, Sending)
    case HandlerReports(thread) => InPhase(l, thread, Reporting)
    case LimitSet(name, _) => name in Names(l.pools.pools)
    case SetterPushes => l.setters > 0
    case Drain => !l.idle
    case Handle(pick) =>
      l.idle && l.events != []
      && (l.events[0].Cancel? && IsWaiting(l, l.events[0].rid) ==> WaitsAt(l, pick, l.events[0].rid))
  }

  function Spawn(l: Loop, rid: Rid, pattern: Pattern): Loop {
    l.(patterns := l.patterns[rid := pattern], threads := l.threads + [Thread(rid, Working, Unclaimed)],
       claims := l.claims[rid := |l.threads|], started := l.started + {rid})
  }

  predicate WaitsAt(l: Loop, ticket: nat, rid: Rid) {
    ticket in l.waiting && l.waiting[ticket].rid == rid
  }

  predicate IsWaiting(l: Loop, rid: Rid) {
    exists t :: t in l.waiting && l.waiting[t].rid == rid
  }

  /** One turn of the drain: start whoever is next, or go and wait. */
  function Drained(l: Loop): Loop {
    match AdmitNext(l.pools)
    case None => l.(idle := true)
    case Some((ticket, pools)) =>
      if ticket in l.waiting then
        var r := l.waiting[ticket];
        Spawn(l.(pools := pools, waiting := l.waiting - {ticket}), r.rid, r.pattern)
      else l.(pools := pools)
  }

  function Requested(l: Loop, chains: Chains, rid: Rid, pattern: Pattern): Loop
    requires pattern in chains
  {
    match Arrive(l.pools, chains[pattern])
    case Entered(pools) => Spawn(l.(pools := pools), rid, pattern)
    case Queued(pools, ticket) => l.(pools := pools, waiting := l.waiting[ticket := Request(rid, pattern)])
    case UnknownPool(_) => l
  }

  /** In line: out of it, with its ERR.  Running and unclaimed: marked.  Otherwise nothing. */
  function Cancelled(l: Loop, rid: Rid, pick: nat): Loop {
    if WaitsAt(l, pick, rid) then
      l.(pools := Leave(l.pools, pick), waiting := l.waiting - {pick}, terminals := l.terminals + multiset{rid})
    else if rid in l.claims && l.claims[rid] < |l.threads| && l.threads[l.claims[rid]].claim == Unclaimed then
      var thread := l.claims[rid];
      l.(threads := l.threads[thread := l.threads[thread].(claim := ByCancel)], cancelled := l.cancelled + {rid})
    else l
  }

  function Finished(l: Loop, chains: Chains, rid: Rid): Loop {
    l.(pools := if rid in l.patterns && l.patterns[rid] in chains then Release(l.pools, chains[l.patterns[rid]])
                else l.pools,
       patterns := l.patterns - {rid}, claims := l.claims - {rid}, cancelled := l.cancelled - {rid},
       terminals := if rid in l.cancelled then l.terminals + multiset{rid} else l.terminals)
  }

  function Handled(l: Loop, chains: Chains, e: Event, pick: nat): Loop {
    match e
    case Req(rid, pattern) => if pattern in chains then Requested(l, chains, rid, pattern) else l
    case Cancel(rid) => Cancelled(l, rid, pick)
    case Done(rid) => Finished(l, chains, rid)
    case Configure(name, capacity) =>
      if name in Names(l.pools.pools) then l.(pools := SetCapacity(l.pools, name, capacity)) else l
    case PoolsChanged => l
    case Other => l
  }

  function Popped(l: Loop): Loop
    requires l.events != []
  {
    l.(events := l.events[1..], idle := false)
  }

  function Apply(l: Loop, chains: Chains, step: Step): Loop
    requires Enabled(l, chains, step)
  {
    match step
    case FrameArrives(e) =>
      l.(events := l.events + [e], asked := if e.Req? then l.asked[e.rid := e.pattern] else l.asked)
    case HandlerEnds(i) =>
      var t := l.threads[i];
      l.(threads := l.threads[i := if t.claim == Unclaimed then Thread(t.rid, Sending, ByHandler)
                                   else t.(phase := Reporting)])
    case HandlerSends(i) =>
      l.(threads := l.threads[i := l.threads[i].(phase := Reporting)],
         terminals := l.terminals + multiset{l.threads[i].rid})
    case HandlerReports(i) =>
      l.(threads := l.threads[i := l.threads[i].(phase := Reported)], events := l.events + [Done(l.threads[i].rid)])
    case LimitSet(name, capacity) => l.(pools := SetCapacity(l.pools, name, capacity), setters := l.setters + 1)
    case SetterPushes => l.(events := l.events + [PoolsChanged], setters := l.setters - 1)
    case Drain => Drained(l)
    case Handle(pick) => Handled(Popped(l), chains, l.events[0], pick)
  }

  // ---- Runs -----------------------------------------------------------------------------------------

  function AtRest(pools: State): Loop {
    Loop(pools, map[], map[], [], map[], {}, [], 0, false, map[], {}, multiset{})
  }

  predicate CanRun(l: Loop, chains: Chains, steps: seq<Step>)
    decreases |steps|
  {
    steps == []
    || (Enabled(l, chains, steps[0]) && CanRun(Apply(l, chains, steps[0]), chains, steps[1..]))
  }

  function Run(l: Loop, chains: Chains, steps: seq<Step>): Loop
    requires CanRun(l, chains, steps)
    decreases |steps|
  {
    if steps == [] then l else Run(Apply(l, chains, steps[0]), chains, steps[1..])
  }

  /** The pools the runtime starts with: every chain known, nobody active, nobody in line. */
  ghost predicate Startable(pools: State, chains: Chains) {
    pools.queue == [] && DistinctNames(pools.pools) && ChainsKnown(pools, chains)
    && forall i :: 0 <= i < |pools.pools| ==> pools.pools[i].active == 0
  }

  ghost predicate Reaches(pools: State, chains: Chains, steps: seq<Step>, l: Loop) {
    Startable(pools, chains) && CanRun(AtRest(pools), chains, steps) && l == Run(AtRest(pools), chains, steps)
  }

  // ---- What every step keeps ----------------------------------------------------------------------

  /** The line and the held requests agree, and the chains name only these pools. */
  ghost predicate LineInv(l: Loop, chains: Chains) {
    InOrder(l.pools) && LineHeld(l.pools, l.waiting, chains) && ChainsKnown(l.pools, chains)
    && DistinctNames(l.pools.pools)
  }

  /** Whatever runs or is to be handled has a pattern the runtime knows. */
  predicate KnownInv(l: Loop, chains: Chains) {
    (forall r :: r in l.patterns ==> l.patterns[r] in chains)
    && (forall i :: 0 <= i < |l.events| && l.events[i].Req? ==> l.events[i].pattern in chains)
  }

  function Holders(patterns: map<Rid, Pattern>, chains: Chains, name: Name): set<Rid> {
    set r | r in patterns && patterns[r] in chains && name in chains[patterns[r]]
  }

  /** The slots of a pool that are taken with no running request to give them back. */
  function Slack(l: Loop, chains: Chains, i: nat): int
    requires i < |l.pools.pools|
  {
    l.pools.pools[i].active - |Holders(l.patterns, chains, l.pools.pools[i].name)|
  }

  /** A pool never counts fewer than the running requests whose chain contains it. */
  predicate PoolBound(l: Loop, chains: Chains) {
    forall i :: 0 <= i < |l.pools.pools| ==> Slack(l, chains, i) >= 0
  }

  /** Conservation: a pool's active count is the number of running requests whose chain contains it. */
  predicate Conserved(l: Loop, chains: Chains) {
    forall i :: 0 <= i < |l.pools.pools| ==> Slack(l, chains, i) == 0
  }

  /** The loop never sleeps on someone who could go, unless it is about to be woken. */
  predicate WakeInv(l: Loop) {
    l.idle ==> NextUp(l.pools).None? || PoolsChanged in l.events || l.setters > 0
  }

  ghost predicate Inv(l: Loop, chains: Chains) {
    LineInv(l, chains) && KnownInv(l, chains) && PoolBound(l, chains) && WakeInv(l)
  }

  // ---- Line ---------------------------------------------------------------------------------------

  /** Whoever the drain admits is held, under the chain it waits for. */
  lemma NextIsHeld(l: Loop, chains: Chains)
    requires LineInv(l, chains) && NextUp(l.pools).Some?
    ensures var w := NextUp(l.pools).value;
            w in l.pools.queue && w.ticket in l.waiting && l.waiting[w.ticket].pattern in chains
            && w.chain == chains[l.waiting[w.ticket].pattern]
  {
    NextUpIsEarliest(l.pools);
    assert NextUp(l.pools).value.ticket in Tickets(l.pools.queue);
  }

  lemma KeepsLine(l: Loop, chains: Chains, pools: seq<Pool>)
    requires LineInv(l, chains) && |pools| == |l.pools.pools|
    requires forall i :: 0 <= i < |pools| ==> pools[i].name == l.pools.pools[i].name
    ensures LineInv(l.(pools := l.pools.(pools := pools)), chains)
  {
    SameNames(l.pools.pools, pools);
    SameNamesKnown(l.pools, pools, chains);
  }

  lemma RemovedLine(l: Loop, chains: Chains, ticket: nat)
    requires LineInv(l, chains)
    ensures LineInv(l.(pools := Leave(l.pools, ticket), waiting := l.waiting - {ticket}), chains)
  {
    RemovedHeld(l.pools, l.waiting, chains, ticket, l.pools.pools);
    SameNamesKnown(l.pools, l.pools.pools, chains);
  }

  lemma DrainLine(l: Loop, chains: Chains)
    requires LineInv(l, chains)
    ensures LineInv(Drained(l), chains)
  {
    if NextUp(l.pools).Some? {
      var w := NextUp(l.pools).value;
      NextIsHeld(l, chains);
      RemovedLine(l, chains, w.ticket);
      KeepsLine(l.(pools := Leave(l.pools, w.ticket), waiting := l.waiting - {w.ticket}), chains,
                Take(l.pools.pools, w.chain));
    }
  }

  lemma EnteredLine(l: Loop, chains: Chains, chain: seq<Name>)
    requires LineInv(l, chains)
    ensures LineInv(l.(pools := State(Take(l.pools.pools, chain), l.pools.queue, l.pools.next + 1)), chains)
  {
    KeepsLine(l, chains, Take(l.pools.pools, chain));
    var kept := l.(pools := l.pools.(pools := Take(l.pools.pools, chain)));
    SameNamesKnown(kept.pools, kept.pools.pools, chains);
  }

  lemma QueuedLine(l: Loop, chains: Chains, request: Request)
    requires LineInv(l, chains) && request.pattern in chains
    ensures var joined := State(l.pools.pools, l.pools.queue + [Waiter(l.pools.next, chains[request.pattern])],
                                l.pools.next + 1);
            LineInv(l.(pools := joined, waiting := l.waiting[l.pools.next := request]), chains)
  {
    QueuedHeld(l.pools, l.waiting, chains, request);
  }

  lemma RequestLine(l: Loop, chains: Chains, rid: Rid, pattern: Pattern)
    requires LineInv(l, chains) && pattern in chains
    ensures LineInv(Requested(l, chains, rid, pattern), chains)
  {
    hide LineInv, Arrive, NextUp, FirstUnknown, ChainHasRoom;
    var chain := chains[pattern];
    KnownChain(l, chains, pattern);
    ArriveEntersIff(l.pools, chain);
    if Arrive(l.pools, chain).Entered? {
      EnteredLine(l, chains, chain);
      SpawnLine(l.(pools := Arrive(l.pools, chain).state), chains, rid, pattern);
    } else {
      ArriveQueues(l.pools, chain);
      QueuedLine(l, chains, Request(rid, pattern));
    }
  }

  lemma KnownChain(l: Loop, chains: Chains, pattern: Pattern)
    requires LineInv(l, chains) && pattern in chains
    ensures InOrder(l.pools) && FirstUnknown(l.pools.pools, chains[pattern]).None?
  {
  }

  lemma SpawnLine(l: Loop, chains: Chains, rid: Rid, pattern: Pattern)
    requires LineInv(l, chains)
    ensures LineInv(Spawn(l, rid, pattern), chains)
  {
  }

  lemma HandleLine(l: Loop, chains: Chains, e: Event, pick: nat)
    requires LineInv(l, chains)
    ensures LineInv(Handled(l, chains, e, pick), chains)
  {
    match e
    case Req(rid, pattern) =>
      if pattern in chains {
        RequestLine(l, chains, rid, pattern);
      }
    case Cancel(rid) =>
      RemovedLine(l, chains, pick);
    case Done(rid) =>
      if rid in l.patterns && l.patterns[rid] in chains {
        KeepsLine(l, chains, GiveBack(l.pools.pools, chains[l.patterns[rid]]));
      }
    case Configure(name, capacity) =>
      if name in Names(l.pools.pools) {
        KeepsLine(l, chains, SetCapacity(l.pools, name, capacity).pools);
      }
    case _ =>
  }

  lemma StepLine(l: Loop, chains: Chains, step: Step)
    requires LineInv(l, chains) && Enabled(l, chains, step)
    ensures LineInv(Apply(l, chains, step), chains)
  {
    match step
    case LimitSet(name, capacity) =>
      KeepsLine(l, chains, SetCapacity(l.pools, name, capacity).pools);
    case Drain => DrainLine(l, chains);
    case Handle(pick) => HandleLine(Popped(l), chains, l.events[0], pick);
    case _ =>
  }

  lemma HandleKnown(l: Loop, chains: Chains, e: Event, pick: nat)
    requires KnownInv(l, chains)
    ensures KnownInv(Handled(l, chains, e, pick), chains)
  {
    hide Arrive, Leave, Release, SetCapacity;
    match e
    case Req(rid, pattern) =>
      if pattern in chains && Arrive(l.pools, chains[pattern]).Entered? {
        SpawnKnown(l.(pools := Arrive(l.pools, chains[pattern]).state), chains, rid, pattern);
      }
      hide Spawn;
    case _ =>
  }

  lemma SpawnKnown(l: Loop, chains: Chains, rid: Rid, pattern: Pattern)
    requires KnownInv(l, chains) && pattern in chains
    ensures KnownInv(Spawn(l, rid, pattern), chains)
  {
  }

  lemma StepKnown(l: Loop, chains: Chains, step: Step)
    requires LineInv(l, chains) && KnownInv(l, chains) && Enabled(l, chains, step)
    ensures KnownInv(Apply(l, chains, step), chains)
  {
    match step
    case Drain =>
      if NextUp(l.pools).Some? {
        NextIsHeld(l, chains);
        var w := NextUp(l.pools).value;
        hide LineInv, NextUp, Spawn, KnownInv;
        var r := l.waiting[w.ticket];
        assert KnownInv(l.(pools := Admitted(l.pools, w), waiting := l.waiting - {w.ticket}), chains) by {
          OtherFields(l, l.(pools := Admitted(l.pools, w), waiting := l.waiting - {w.ticket}), chains);
        }
        SpawnKnown(l.(pools := Admitted(l.pools, w), waiting := l.waiting - {w.ticket}), chains, r.rid, r.pattern);
      }
    case Handle(pick) =>
      hide LineInv, Handled;
      HandleKnown(Popped(l), chains, l.events[0], pick);
    case _ =>
      hide LineInv;
  }

  lemma OtherFields(l: Loop, after: Loop, chains: Chains)
    requires KnownInv(l, chains) && after.patterns == l.patterns && after.events == l.events
    ensures KnownInv(after, chains)
  {
  }

  /** Handling an event queues none. */
  lemma KeepsEvents(l: Loop, chains: Chains, e: Event, pick: nat)
    ensures Handled(l, chains, e, pick).events == l.events && Handled(l, chains, e, pick).idle == l.idle
  {
  }

  lemma StepWakes(l: Loop, chains: Chains, step: Step)
    requires WakeInv(l) && Enabled(l, chains, step)
    ensures WakeInv(Apply(l, chains, step))
  {
    match step
    case Handle(pick) => KeepsEvents(Popped(l), chains, l.events[0], pick);
    case _ =>
  }

  // ---- Pools ---------------------------------------------------------------------------------------

  /** Who a step starts. */
  function Starting(l: Loop, chains: Chains, step: Step): Option<Rid>
    requires Enabled(l, chains, step)
  {
    match step
    case Drain =>
      if NextUp(l.pools).Some? && NextUp(l.pools).value.ticket in l.waiting
      then Some(l.waiting[NextUp(l.pools).value.ticket].rid) else None
    case Handle(_) =>
      var e := l.events[0];
      if e.Req? && e.pattern in chains && Arrive(l.pools, chains[e.pattern]).Entered? then Some(e.rid) else None
    case _ => None
  }

  /** The step starts a request while another under its id still runs, whose chain is thereby forgotten. */
  predicate Displaces(l: Loop, chains: Chains, step: Step, name: Name)
    requires Enabled(l, chains, step)
  {
    var r := Starting(l, chains, step);
    r.Some? && r.value in l.patterns && l.patterns[r.value] in chains && name in chains[l.patterns[r.value]]
  }

  /** Whose pattern is recorded changes who holds a pool by one on either side. */
  lemma HoldersStart(patterns: map<Rid, Pattern>, chains: Chains, rid: Rid, pattern: Pattern, name: Name)
    requires pattern in chains && (rid in patterns ==> patterns[rid] in chains)
    ensures |Holders(patterns[rid := pattern], chains, name)|
         == |Holders(patterns, chains, name)| + (if name in chains[pattern] then 1 else 0)
            - (if rid in patterns && name in chains[patterns[rid]] then 1 else 0)
  {
    var others := Holders(patterns - {rid}, chains, name);
    HoldersWith(patterns, chains, rid, name);
    HoldersWith(patterns[rid := pattern], chains, rid, name);
    assert patterns[rid := pattern] - {rid} == patterns - {rid};
  }

  lemma HoldersWith(patterns: map<Rid, Pattern>, chains: Chains, rid: Rid, name: Name)
    requires rid in patterns ==> patterns[rid] in chains
    ensures |Holders(patterns, chains, name)|
         == |Holders(patterns - {rid}, chains, name)|
            + (if rid in patterns && name in chains[patterns[rid]] then 1 else 0)
  {
    if rid in patterns && name in chains[patterns[rid]] {
      assert Holders(patterns, chains, name) == Holders(patterns - {rid}, chains, name) + {rid};
    } else {
      assert Holders(patterns - {rid}, chains, name) == Holders(patterns, chains, name);
    }
  }

  /** The precondition of a release: a running request's pools each have a slot to give back. */
  lemma ReleaseIsCovered(l: Loop, chains: Chains, rid: Rid, i: nat)
    requires KnownInv(l, chains) && PoolBound(l, chains) && rid in l.patterns && i < |l.pools.pools|
    requires l.pools.pools[i].name in chains[l.patterns[rid]]
    ensures l.pools.pools[i].active > 0
  {
    assert Slack(l, chains, i) >= 0;
    HoldersWith(l.patterns, chains, rid, l.pools.pools[i].name);
  }

  lemma SpawnSlack(l: Loop, chains: Chains, s: State, rid: Rid, pattern: Pattern, i: nat)
    requires KnownInv(l, chains) && pattern in chains && i < |l.pools.pools|
    requires s.pools == Take(l.pools.pools, chains[pattern])
    ensures var after := Spawn(l.(pools := s), rid, pattern);
            |after.pools.pools| == |l.pools.pools|
            && Slack(after, chains, i) == Slack(l, chains, i)
                 + (if rid in l.patterns && l.pools.pools[i].name in chains[l.patterns[rid]] then 1 else 0)
  {
    HoldersStart(l.patterns, chains, rid, pattern, l.pools.pools[i].name);
  }

  lemma FinishSlack(l: Loop, chains: Chains, rid: Rid, i: nat)
    requires KnownInv(l, chains) && PoolBound(l, chains) && i < |l.pools.pools|
    ensures var after := Finished(l, chains, rid);
            |after.pools.pools| == |l.pools.pools| && after.pools.pools[i].name == l.pools.pools[i].name
            && Slack(after, chains, i) == Slack(l, chains, i)
  {
    HoldersWith(l.patterns, chains, rid, l.pools.pools[i].name);
    if rid in l.patterns && l.pools.pools[i].name in chains[l.patterns[rid]] {
      ReleaseIsCovered(l, chains, rid, i);
    }
    if rid !in l.patterns {
      assert l.patterns - {rid} == l.patterns;
    }
  }

  lemma RequestSlack(l: Loop, chains: Chains, rid: Rid, pattern: Pattern, i: nat)
    requires LineInv(l, chains) && KnownInv(l, chains) && pattern in chains && i < |l.pools.pools|
    ensures var after := Requested(l, chains, rid, pattern);
            |after.pools.pools| == |l.pools.pools| && after.pools.pools[i].name == l.pools.pools[i].name
            && Slack(after, chains, i) == Slack(l, chains, i)
                 + (if Arrive(l.pools, chains[pattern]).Entered? && rid in l.patterns
                       && l.pools.pools[i].name in chains[l.patterns[rid]] then 1 else 0)
  {
    hide LineInv, Arrive, NextUp, FirstUnknown, ChainHasRoom;
    KnownChain(l, chains, pattern);
    ArriveEntersIff(l.pools, chains[pattern]);
    if Arrive(l.pools, chains[pattern]).Entered? {
      SpawnSlack(l, chains, Arrive(l.pools, chains[pattern]).state, rid, pattern, i);
    } else {
      ArriveQueues(l.pools, chains[pattern]);
    }
  }

  lemma DrainSlack(l: Loop, chains: Chains, i: nat)
    requires LineInv(l, chains) && KnownInv(l, chains) && i < |l.pools.pools| && !l.idle
    ensures var after := Drained(l);
            |after.pools.pools| == |l.pools.pools| && after.pools.pools[i].name == l.pools.pools[i].name
            && Slack(after, chains, i) == Slack(l, chains, i)
                 + (if Displaces(l, chains, Drain, l.pools.pools[i].name) then 1 else 0)
  {
    if NextUp(l.pools).Some? {
      NextIsHeld(l, chains);
      var w := NextUp(l.pools).value;
      hide LineInv, NextUp;
      var r := l.waiting[w.ticket];
      SpawnSlack(l.(waiting := l.waiting - {w.ticket}), chains, Admitted(l.pools, w), r.rid, r.pattern, i);
    }
  }

  /** A pool's slack grows by one exactly when a start displaces a running request of it, and changes no other way. */
  lemma StepSlack(l: Loop, chains: Chains, step: Step, i: nat)
    requires LineInv(l, chains) && KnownInv(l, chains) && PoolBound(l, chains) && Enabled(l, chains, step)
    requires i < |l.pools.pools|
    ensures var after := Apply(l, chains, step);
            |after.pools.pools| == |l.pools.pools| && after.pools.pools[i].name == l.pools.pools[i].name
            && Slack(after, chains, i) == Slack(l, chains, i)
                 + (if Displaces(l, chains, step, l.pools.pools[i].name) then 1 else 0)
  {
    match step
    case Drain => DrainSlack(l, chains, i);
    case Handle(pick) =>
      hide LineInv;
      HandleSlack(l, chains, pick, i);
    case _ =>
      hide LineInv;
  }

  lemma ConfigureSlack(l: Loop, chains: Chains, name: Name, capacity: nat, i: nat)
    requires i < |l.pools.pools| && name in Names(l.pools.pools)
    ensures var after := l.(pools := SetCapacity(l.pools, name, capacity));
            |after.pools.pools| == |l.pools.pools| && after.pools.pools[i].name == l.pools.pools[i].name
            && Slack(after, chains, i) == Slack(l, chains, i)
  {
  }

  lemma HandledSlack(l: Loop, chains: Chains, e: Event, pick: nat, i: nat)
    requires LineInv(l, chains) && KnownInv(l, chains) && PoolBound(l, chains) && i < |l.pools.pools|
    ensures var after := Handled(l, chains, e, pick);
            |after.pools.pools| == |l.pools.pools| && after.pools.pools[i].name == l.pools.pools[i].name
            && Slack(after, chains, i) == Slack(l, chains, i)
                 + (if e.Req? && e.pattern in chains && Arrive(l.pools, chains[e.pattern]).Entered?
                       && e.rid in l.patterns && l.pools.pools[i].name in chains[l.patterns[e.rid]] then 1 else 0)
  {
    hide LineInv, PoolBound, Arrive, Requested, Finished, SetCapacity, Holders, WithoutTicket, Release;
    match e
    case Req(rid, pattern) =>
      if pattern in chains {
        RequestSlack(l, chains, rid, pattern, i);
      }
    case Done(rid) =>
      FinishSlack(l, chains, rid, i);
    case Configure(name, capacity) =>
      if name in Names(l.pools.pools) {
        ConfigureSlack(l, chains, name, capacity, i);
      }
    case _ =>
  }

  lemma HandleSlack(l: Loop, chains: Chains, pick: nat, i: nat)
    requires LineInv(l, chains) && KnownInv(l, chains) && PoolBound(l, chains) && Enabled(l, chains, Handle(pick))
    requires i < |l.pools.pools|
    ensures var after := Handled(Popped(l), chains, l.events[0], pick);
            |after.pools.pools| == |l.pools.pools| && after.pools.pools[i].name == l.pools.pools[i].name
            && Slack(after, chains, i) == Slack(l, chains, i)
                 + (if Displaces(l, chains, Handle(pick), l.pools.pools[i].name) then 1 else 0)
  {
    assert Slack(Popped(l), chains, i) == Slack(l, chains, i);
    PoppedInv(l, chains);
    StillKnown(l, chains);
    hide Handled, Slack, LineInv, KnownInv, PoolBound, Arrive;
    HandledSlack(Popped(l), chains, l.events[0], pick, i);
  }

  lemma StillKnown(l: Loop, chains: Chains)
    requires KnownInv(l, chains)
    ensures forall r :: r in l.patterns ==> l.patterns[r] in chains
  {
  }

  lemma PoppedInv(l: Loop, chains: Chains)
    requires LineInv(l, chains) && KnownInv(l, chains) && PoolBound(l, chains) && l.events != []
    ensures LineInv(Popped(l), chains) && KnownInv(Popped(l), chains) && PoolBound(Popped(l), chains)
  {
    forall i | 0 <= i < |l.pools.pools|
      ensures Slack(Popped(l), chains, i) >= 0
    {
      assert Slack(l, chains, i) >= 0;
    }
  }

  lemma StepBound(l: Loop, chains: Chains, step: Step)
    requires LineInv(l, chains) && KnownInv(l, chains) && PoolBound(l, chains) && Enabled(l, chains, step)
    ensures PoolBound(Apply(l, chains, step), chains)
    ensures |Apply(l, chains, step).pools.pools| == |l.pools.pools|
  {
    var after := Apply(l, chains, step);
    hide LineInv, KnownInv, Displaces, Slack, Apply, Enabled;
    if |l.pools.pools| > 0 {
      StepSlack(l, chains, step, 0);
    } else {
      StepNoPools(l, chains, step);
    }
    forall i | 0 <= i < |l.pools.pools|
      ensures Slack(after, chains, i) >= 0
    {
      assert Slack(l, chains, i) >= 0;
      StepSlack(l, chains, step, i);
    }
  }

  lemma StepNoPools(l: Loop, chains: Chains, step: Step)
    requires LineInv(l, chains) && Enabled(l, chains, step) && |l.pools.pools| == 0
    ensures |Apply(l, chains, step).pools.pools| == 0
  {
    hide NextUp, FirstUnknown, Arrive, Names, Requested, Take, ChainHasRoom;
    if step.Handle? && l.events[0].Req? && l.events[0].pattern in chains {
      NoPoolsArrive(Popped(l), chains, l.events[0].rid, l.events[0].pattern);
    }
    hide LineInv;
  }

  lemma NoPoolsArrive(l: Loop, chains: Chains, rid: Rid, pattern: Pattern)
    requires LineInv(l, chains) && |l.pools.pools| == 0 && pattern in chains
    ensures |Requested(l, chains, rid, pattern).pools.pools| == 0
  {
    KnownChain(l, chains, pattern);
    ArriveEntersIff(l.pools, chains[pattern]);
    if !Arrive(l.pools, chains[pattern]).Entered? {
      ArriveQueues(l.pools, chains[pattern]);
    }
    hide LineInv, Arrive;
  }

  lemma StepInv(l: Loop, chains: Chains, step: Step)
    requires Inv(l, chains) && Enabled(l, chains, step)
    ensures Inv(Apply(l, chains, step), chains)
  {
    StepLine(l, chains, step);
    StepKnown(l, chains, step);
    StepBound(l, chains, step);
    StepWakes(l, chains, step);
  }

  // ---- Every reachable state -------------------------------------------------------------------------

  lemma {:induction false} RunInv(l: Loop, chains: Chains, steps: seq<Step>)
    requires Inv(l, chains) && CanRun(l, chains, steps)
    ensures Inv(Run(l, chains, steps), chains)
    decreases |steps|
  {
    if steps != [] {
      StepInv(l, chains, steps[0]);
      RunInv(Apply(l, chains, steps[0]), chains, steps[1..]);
    }
  }

  lemma RestInv(pools: State, chains: Chains)
    requires Startable(pools, chains)
    ensures Inv(AtRest(pools), chains) && Conserved(AtRest(pools), chains)
  {
    forall name
      ensures Holders(map[], chains, name) == {}
    {
    }
  }

  lemma ReachedInv(pools: State, chains: Chains, steps: seq<Step>, l: Loop)
    requires Reaches(pools, chains, steps, l)
    ensures Inv(l, chains)
  {
    RestInv(pools, chains);
    RunInv(AtRest(pools), chains, steps);
  }

  /** How often a run displaced a request that held the pool. */
  function Lost(l: Loop, chains: Chains, steps: seq<Step>, name: Name): nat
    requires CanRun(l, chains, steps)
    decreases |steps|
  {
    if steps == [] then 0
    else
      (if Displaces(l, chains, steps[0], name) then 1 else 0)
      + Lost(Apply(l, chains, steps[0]), chains, steps[1..], name)
  }

  lemma {:induction false} RunSlack(l: Loop, chains: Chains, steps: seq<Step>, i: nat)
    requires Inv(l, chains) && CanRun(l, chains, steps) && i < |l.pools.pools|
    ensures var after := Run(l, chains, steps);
            |after.pools.pools| == |l.pools.pools| && after.pools.pools[i].name == l.pools.pools[i].name
            && Slack(after, chains, i) == Slack(l, chains, i) + Lost(l, chains, steps, l.pools.pools[i].name)
    decreases |steps|
  {
    hide Displaces, Slack, Apply, Enabled;
    if steps != [] {
      StepInv(l, chains, steps[0]);
      StepSlack(l, chains, steps[0], i);
      hide LineInv, KnownInv, PoolBound, WakeInv;
      RunSlack(Apply(l, chains, steps[0]), chains, steps[1..], i);
    }
  }

  /** No step of the run starts a request while another under its id still runs and holds a pool. */
  predicate NoneDisplaced(l: Loop, chains: Chains, steps: seq<Step>)
    requires CanRun(l, chains, steps)
    decreases |steps|
  {
    steps == []
    || (!DisplacesAny(l, chains, steps[0]) && NoneDisplaced(Apply(l, chains, steps[0]), chains, steps[1..]))
  }

  predicate DisplacesAny(l: Loop, chains: Chains, step: Step)
    requires Enabled(l, chains, step)
  {
    var r := Starting(l, chains, step);
    r.Some? && r.value in l.patterns && l.patterns[r.value] in chains && chains[l.patterns[r.value]] != []
  }

  lemma DisplacesSomePool(l: Loop, chains: Chains, step: Step)
    requires LineInv(l, chains) && Enabled(l, chains, step)
    ensures DisplacesAny(l, chains, step)
            <==> exists i :: 0 <= i < |l.pools.pools| && Displaces(l, chains, step, l.pools.pools[i].name)
  {
    if DisplacesAny(l, chains, step) {
      var chain := chains[l.patterns[Starting(l, chains, step).value]];
      FirstUnknownIff(l.pools.pools, chain);
      assert chain[0] in chain && chain[0] in Names(l.pools.pools);
      var i :| 0 <= i < |l.pools.pools| && l.pools.pools[i].name == chain[0];
      assert Displaces(l, chains, step, l.pools.pools[i].name);
    }
  }

  predicate LosesNothing(l: Loop, chains: Chains, steps: seq<Step>, names: seq<Pool>)
    requires CanRun(l, chains, steps)
  {
    forall i :: 0 <= i < |names| ==> Lost(l, chains, steps, names[i].name) == 0
  }

  lemma {:induction false} LostIff(l: Loop, chains: Chains, steps: seq<Step>)
    requires Inv(l, chains) && CanRun(l, chains, steps)
    ensures LosesNothing(l, chains, steps, l.pools.pools) <==> NoneDisplaced(l, chains, steps)
    decreases |steps|
  {
    hide Displaces, DisplacesAny, Apply, Enabled, Slack;
    if steps != [] {
      var after := Apply(l, chains, steps[0]);
      StepInv(l, chains, steps[0]);
      StepBound(l, chains, steps[0]);
      DisplacesSomePool(l, chains, steps[0]);
      LostIff(after, chains, steps[1..]);
      forall i | 0 <= i < |l.pools.pools|
        ensures after.pools.pools[i].name == l.pools.pools[i].name
      {
        StepSlack(l, chains, steps[0], i);
      }
      hide LineInv, KnownInv, PoolBound, WakeInv;
      if LosesNothing(l, chains, steps, l.pools.pools) {
        forall i | 0 <= i < |l.pools.pools|
          ensures !Displaces(l, chains, steps[0], l.pools.pools[i].name)
          ensures Lost(after, chains, steps[1..], l.pools.pools[i].name) == 0
        {
          assert Lost(l, chains, steps, l.pools.pools[i].name) == 0;
        }
      }
    }
  }

  /**
    Pool conservation, exactly.  After any run, each pool counts its running
    requests and, on top, one slot for every time a request was started while
    another under its id still ran and held the pool.  So active counts are right
    precisely if no such start has happened.
  */
  lemma PoolsAreConservedIff(pools: State, chains: Chains, steps: seq<Step>, l: Loop)
    requires Reaches(pools, chains, steps, l)
    ensures forall i :: 0 <= i < |l.pools.pools| ==>
              l.pools.pools[i].active == |Holders(l.patterns, chains, l.pools.pools[i].name)|
                                         + Lost(AtRest(pools), chains, steps, l.pools.pools[i].name)
    ensures Conserved(l, chains) <==> NoneDisplaced(AtRest(pools), chains, steps)
  {
    var start := AtRest(pools);
    RestInv(pools, chains);
    LostIff(start, chains, steps);
    RunPools(start, chains, steps);
    forall i | 0 <= i < |l.pools.pools|
      ensures l.pools.pools[i].name == start.pools.pools[i].name
      ensures Slack(l, chains, i) == Lost(start, chains, steps, l.pools.pools[i].name)
    {
      assert Slack(start, chains, i) == 0;
      RunSlack(start, chains, steps, i);
    }
    hide Inv, CanRun, Startable, NoneDisplaced, Lost;
    if LosesNothing(start, chains, steps, start.pools.pools) {
      forall i | 0 <= i < |l.pools.pools|
        ensures Slack(l, chains, i) == 0
      {
        assert Lost(start, chains, steps, start.pools.pools[i].name) == 0;
      }
    }
    if Conserved(l, chains) {
      forall i | 0 <= i < |start.pools.pools|
        ensures Lost(start, chains, steps, start.pools.pools[i].name) == 0
      {
        assert Slack(l, chains, i) == 0;
      }
    }
  }

  lemma {:induction false} RunPools(l: Loop, chains: Chains, steps: seq<Step>)
    requires Inv(l, chains) && CanRun(l, chains, steps)
    ensures |Run(l, chains, steps).pools.pools| == |l.pools.pools|
    decreases |steps|
  {
    hide Apply, Enabled;
    if steps != [] {
      StepInv(l, chains, steps[0]);
      StepBound(l, chains, steps[0]);
      hide Inv;
      RunPools(Apply(l, chains, steps[0]), chains, steps[1..]);
    }
  }

  /** A slot once lost is lost for good: no continuation of the run sets the counts right. */
  lemma LostForGood(l: Loop, chains: Chains, steps: seq<Step>)
    requires Inv(l, chains) && CanRun(l, chains, steps) && !Conserved(l, chains)
    ensures !Conserved(Run(l, chains, steps), chains)
  {
    var i :| 0 <= i < |l.pools.pools| && Slack(l, chains, i) != 0;
    assert Slack(l, chains, i) >= 0;
    RunSlack(l, chains, steps, i);
    hide Inv, Slack, CanRun;
    assert Slack(Run(l, chains, steps), chains, i) != 0;
  }

  /**
    The runtime's fatal branches, unreachable in every run whatever ids come: a
    running request's pools each have a slot to give back, whoever is admitted
    from the line is held, and no request arrives at an unknown pool.
  */
  lemma NothingFatal(pools: State, chains: Chains, steps: seq<Step>, l: Loop)
    requires Reaches(pools, chains, steps, l)
    ensures forall r, i :: r in l.patterns && 0 <= i < |l.pools.pools| ==>
              l.patterns[r] in chains
              && (l.pools.pools[i].name in chains[l.patterns[r]] ==> l.pools.pools[i].active > 0)
    ensures l.waiting.Keys == Tickets(l.pools.queue)
    ensures AdmitNext(l.pools).Some? ==> AdmitNext(l.pools).value.0 in l.waiting
    ensures forall i :: 0 <= i < |l.events| && l.events[i].Req? ==>
              l.events[i].pattern in chains && !Arrive(l.pools, chains[l.events[i].pattern]).UnknownPool?
  {
    ReachedInv(pools, chains, steps, l);
    hide Reaches;
    forall r, i | r in l.patterns && 0 <= i < |l.pools.pools| && l.pools.pools[i].name in chains[l.patterns[r]]
      ensures l.pools.pools[i].active > 0
    {
      ReleaseIsCovered(l, chains, r, i);
    }
    if NextUp(l.pools).Some? {
      NextIsHeld(l, chains);
    }
  }

  // ---- Which arrivals are safe -----------------------------------------------------------------------

  /** The request now handled comes under an id that is neither running nor in line. */
  predicate ComesApart(l: Loop, step: Step) {
    step.Handle? && l.events != [] && l.events[0].Req? ==>
      l.events[0].rid !in l.patterns && !IsWaiting(l, l.events[0].rid)
  }

  predicate AllComeApart(l: Loop, chains: Chains, steps: seq<Step>)
    requires CanRun(l, chains, steps)
    decreases |steps|
  {
    steps == [] || (ComesApart(l, steps[0]) && AllComeApart(Apply(l, chains, steps[0]), chains, steps[1..]))
  }

  /** At most one request of an id is in line or running. */
  predicate Apart(l: Loop) {
    (forall t, u :: t in l.waiting && u in l.waiting && t != u ==> l.waiting[t].rid != l.waiting[u].rid)
    && (forall t :: t in l.waiting ==> l.waiting[t].rid !in l.patterns)
  }

  lemma StepApart(l: Loop, chains: Chains, step: Step)
    requires LineInv(l, chains) && Enabled(l, chains, step) && Apart(l) && ComesApart(l, step)
    ensures Apart(Apply(l, chains, step)) && !DisplacesAny(l, chains, step)
  {
    hide LineInv, NextUp;
    match step
    case Drain =>
      hide Apart;
      if NextUp(l.pools).Some? {
        NextIsHeld(l, chains);
        StartApart(l, NextUp(l.pools).value.ticket, Admitted(l.pools, NextUp(l.pools).value));
      }
    case Handle(pick) =>
      hide Apart;
      HandleApart(l, chains, pick);
    case _ =>
  }

  lemma StartApart(l: Loop, ticket: nat, pools: State)
    requires Apart(l) && ticket in l.waiting
    ensures l.waiting[ticket].rid !in l.patterns
    ensures var r := l.waiting[ticket];
            Apart(Spawn(l.(pools := pools, waiting := l.waiting - {ticket}), r.rid, r.pattern))
  {
  }

  lemma SpawnApart(l: Loop, rid: Rid, pattern: Pattern)
    requires Apart(l) && !IsWaiting(l, rid)
    ensures Apart(Spawn(l, rid, pattern))
  {
  }

  lemma QueueApart(l: Loop, ticket: nat, pools: State, request: Request)
    requires Apart(l) && request.rid !in l.patterns && !IsWaiting(l, request.rid)
    ensures Apart(l.(pools := pools, waiting := l.waiting[ticket := request]))
  {
  }

  lemma RequestApart(l: Loop, chains: Chains, rid: Rid, pattern: Pattern)
    requires pattern in chains && Apart(l) && rid !in l.patterns && !IsWaiting(l, rid)
    ensures Apart(Requested(l, chains, rid, pattern))
  {
    hide Arrive, Apart, Spawn;
    match Arrive(l.pools, chains[pattern])
    case Entered(pools) =>
      SamePlacesApart(l, l.(pools := pools), rid);
      SpawnApart(l.(pools := pools), rid, pattern);
    case Queued(pools, ticket) =>
      QueueApart(l, ticket, pools, Request(rid, pattern));
    case UnknownPool(_) =>
  }

  lemma SamePlacesApart(l: Loop, after: Loop, rid: Rid)
    requires Apart(l) && !IsWaiting(l, rid) && after.waiting == l.waiting && after.patterns == l.patterns
    ensures Apart(after) && !IsWaiting(after, rid)
  {
  }

  lemma HandledApart(l: Loop, chains: Chains, e: Event, pick: nat)
    requires Apart(l) && !(e.Req? && e.pattern in chains)
    ensures Apart(Handled(l, chains, e, pick))
  {
    hide Release, SetCapacity, Leave;
  }

  lemma HandleApart(l: Loop, chains: Chains, pick: nat)
    requires Enabled(l, chains, Handle(pick)) && Apart(l) && ComesApart(l, Handle(pick))
    ensures Apart(Apply(l, chains, Handle(pick))) && !DisplacesAny(l, chains, Handle(pick))
  {
    var e := l.events[0];
    if e.Req? && e.pattern in chains {
      RequestApart(Popped(l), chains, e.rid, e.pattern);
      hide Apart, Arrive, Requested;
    } else {
      HandledApart(Popped(l), chains, e, pick);
      hide Apart, Handled;
    }
  }

  /** Conservation as a caller can see to it: every id is free again before it comes again. */
  lemma {:induction false} ApartIsConserved(l: Loop, chains: Chains, steps: seq<Step>)
    requires Inv(l, chains) && Apart(l) && CanRun(l, chains, steps) && AllComeApart(l, chains, steps)
    ensures NoneDisplaced(l, chains, steps) && Apart(Run(l, chains, steps))
    decreases |steps|
  {
    hide DisplacesAny, Apply, Enabled, ComesApart, Apart;
    if steps != [] {
      StepInv(l, chains, steps[0]);
      StepApart(l, chains, steps[0]);
      hide Inv;
      ApartIsConserved(Apply(l, chains, steps[0]), chains, steps[1..]);
    }
  }

  const TwoSlots := State([Pool("main", 2, 0)], [], 0)
  const OneChain: Chains := map["op" := ["main"]]

  /** A request comes, finds room and starts. */
  function ComesAndStarts(rid: Rid): seq<Step> {
    [FrameArrives(Req(rid, "op")), Drain, Handle(0)]
  }

  lemma RoomForOne(active: nat, next: nat)
    requires active < 2
    ensures Arrive(State([Pool("main", 2, active)], [], next), ["main"])
         == Entered(State([Pool("main", 2, active + 1)], [], next + 1))
  {
    hide Arrive, NextUp, WithoutTicket, FirstUnknown;
    var s := State([Pool("main", 2, active)], [], next);
    assert s.pools[0] in s.pools;
    assert FirstUnknown(s.pools, ["main"]).None? by {
      FirstUnknownIff(s.pools, ["main"]);
    }
    ArriveEntersIff(s, ["main"]);
    assert Take(s.pools, ["main"]) == [Pool("main", 2, active + 1)];
  }

  lemma StartsOneMore(l: Loop, rid: Rid, active: nat, next: nat)
    requires active < 2 && l.pools == State([Pool("main", 2, active)], [], next) && l.events == [] && !l.idle
    ensures CanRun(l, OneChain, ComesAndStarts(rid))
    ensures var after := Run(l, OneChain, ComesAndStarts(rid));
            after.pools == State([Pool("main", 2, active + 1)], [], next + 1) && after.events == [] && !after.idle
            && after.patterns == l.patterns[rid := "op"]
  {
    RoomForOne(active, next);
    var steps := ComesAndStarts(rid);
    var a := Apply(l, OneChain, steps[0]);
    assert steps[1..][0] == Drain && steps[1..][1..] == [Handle(0)] && [Handle(0)][1..] == [];
    assert NextUp(a.pools).None?;
    var b := Apply(a, OneChain, Drain);
    assert b.events == [Req(rid, "op")] && b.events[1..] == [];
    hide Arrive, NextUp;
    assert Enabled(b, OneChain, Handle(0));
    var c := Apply(b, OneChain, Handle(0));
    assert c == Spawn(Popped(b).(pools := State([Pool("main", 2, active + 1)], [], next + 1)), rid, "op");
    assert Enabled(l, OneChain, steps[0]) && Enabled(a, OneChain, Drain);
    hide Apply, Enabled;
    assert CanRun(b, OneChain, [Handle(0)]) && Run(b, OneChain, [Handle(0)]) == c;
    assert CanRun(a, OneChain, steps[1..]);
    assert Run(a, OneChain, steps[1..]) == c;
  }

  lemma {:induction false} RunAppend(l: Loop, chains: Chains, steps: seq<Step>, more: seq<Step>)
    requires CanRun(l, chains, steps) && CanRun(Run(l, chains, steps), chains, more)
    ensures CanRun(l, chains, steps + more)
    ensures Run(l, chains, steps + more) == Run(Run(l, chains, steps), chains, more)
    decreases |steps|
  {
    hide Apply, Enabled;
    if steps == [] {
      assert steps + more == more;
    } else {
      RunAppend(Apply(l, chains, steps[0]), chains, steps[1..], more);
      assert (steps + more)[1..] == steps[1..] + more;
    }
  }

  /**
    The smallest failing run: an id comes again while its first request still
    runs.  Both requests hold a slot, one is on record, and whatever happens next
    the other's slot never comes back.
  */
  lemma SameIdTwice(rid: Rid, steps: seq<Step>)
    requires var run := ComesAndStarts(rid) + ComesAndStarts(rid);
             CanRun(AtRest(TwoSlots), OneChain, run + steps)
    ensures CanRun(AtRest(TwoSlots), OneChain, ComesAndStarts(rid) + ComesAndStarts(rid))
    ensures var l := Run(AtRest(TwoSlots), OneChain, ComesAndStarts(rid) + ComesAndStarts(rid));
            Startable(TwoSlots, OneChain) && l.pools.pools == [Pool("main", 2, 2)] && l.patterns == map[rid := "op"]
            && !Conserved(l, OneChain)
    ensures !Conserved(Run(AtRest(TwoSlots), OneChain, ComesAndStarts(rid) + ComesAndStarts(rid) + steps), OneChain)
  {
    var start, once := AtRest(TwoSlots), ComesAndStarts(rid);
    StartsOneMore(start, rid, 0, 0);
    StartsOneMore(Run(start, OneChain, once), rid, 1, 1);
    RunAppend(start, OneChain, once, once);
    hide ComesAndStarts, CanRun, Run;
    var l := Run(start, OneChain, once + once);
    TwoSlotsStartable();
    assert Holders(l.patterns, OneChain, "main") == {rid};
    assert Slack(l, OneChain, 0) == 1;
    RestInv(TwoSlots, OneChain);
    RunInv(start, OneChain, once + once);
    CanRunOn(start, OneChain, once + once, steps);
    LostForGood(l, OneChain, steps);
    RunAppend(start, OneChain, once + once, steps);
  }

  lemma TwoSlotsStartable()
    ensures Startable(TwoSlots, OneChain)
  {
    assert TwoSlots.pools[0] in TwoSlots.pools;
    FirstUnknownIff(TwoSlots.pools, ["main"]);
  }

  lemma {:induction false} CanRunOn(l: Loop, chains: Chains, steps: seq<Step>, more: seq<Step>)
    requires CanRun(l, chains, steps + more) && CanRun(l, chains, steps)
    ensures CanRun(Run(l, chains, steps), chains, more)
    decreases |steps|
  {
    hide Apply, Enabled;
    if steps == [] {
      assert steps + more == more;
    } else {
      assert (steps + more)[1..] == steps[1..] + more;
      CanRunOn(Apply(l, chains, steps[0]), chains, steps[1..], more);
    }
  }

  // ---- Limits ------------------------------------------------------------------------------------------

  /** A new limit, set from outside or by the operator's message, is the pool's at once, and nothing else moves. */
  lemma NewLimitHolds(l: Loop, chains: Chains, step: Step, name: Name, capacity: nat)
    requires Enabled(l, chains, step) && name in Names(l.pools.pools)
    requires step == LimitSet(name, capacity) || (step.Handle? && l.events[0] == Configure(name, capacity))
    ensures var after := Apply(l, chains, step);
            SameButLimit(l.pools, after.pools, {name})
            && (forall i :: 0 <= i < |l.pools.pools| && l.pools.pools[i].name == name ==>
                  after.pools.pools[i].capacity == capacity)
            && after.threads == l.threads && after.patterns == l.patterns && after.waiting == l.waiting
  {
  }

  function CountSet(steps: seq<Step>): nat {
    if steps == [] then 0 else (if steps[0].LimitSet? then 1 else 0) + CountSet(steps[1..])
  }

  function CountPushes(steps: seq<Step>): nat {
    if steps == [] then 0 else (if steps[0].SetterPushes? then 1 else 0) + CountPushes(steps[1..])
  }

  /** Each limit set from outside wakes the loop once, sooner or later. */
  lemma {:induction false} EachSetterPushesOnce(l: Loop, chains: Chains, steps: seq<Step>)
    requires CanRun(l, chains, steps)
    ensures l.setters + CountSet(steps) == Run(l, chains, steps).setters + CountPushes(steps)
    decreases |steps|
  {
    if steps != [] {
      StepSetters(l, chains, steps[0]);
      hide Apply, Enabled;
      EachSetterPushesOnce(Apply(l, chains, steps[0]), chains, steps[1..]);
    }
  }

  lemma StepSetters(l: Loop, chains: Chains, step: Step)
    requires Enabled(l, chains, step)
    ensures Apply(l, chains, step).setters
         == l.setters + (if step.LimitSet? then 1 else 0) - (if step.SetterPushes? then 1 else 0)
  {
    hide Arrive, NextUp, SetCapacity, Release, Leave;
  }

  // ---- Nobody is forgotten ---------------------------------------------------------------------------

  /**
    No lost wakeup: a loop that sleeps with nothing queued and no limit change on
    its way has nobody in line who could go, and, unless slots were lost, nobody in
    line at all once nothing runs, whatever the limits have become.
  */
  lemma NobodyLeftWaiting(pools: State, chains: Chains, steps: seq<Step>, l: Loop)
    requires Reaches(pools, chains, steps, l)
    requires l.idle && l.events == [] && l.setters == 0
    ensures forall w :: w in l.pools.queue ==> !Fits(l.pools.pools, w.chain)
    ensures l.patterns == map[] && NoneDisplaced(AtRest(pools), chains, steps) ==>
              l.pools.queue == [] && l.waiting == map[]
  {
    ReachedInv(pools, chains, steps, l);
    NextUpIsEarliest(l.pools);
    PoolsAreConservedIff(pools, chains, steps, l);
    hide Reaches, NoneDisplaced;
    if l.patterns == map[] && Conserved(l, chains) {
      forall i | 0 <= i < |l.pools.pools|
        ensures l.pools.pools[i].active == 0
      {
        assert Slack(l, chains, i) == 0;
        assert Holders(l.patterns, chains, l.pools.pools[i].name) == {};
      }
      IdlePoolsAdmit(l.pools);
      assert l.waiting.Keys == {};
    }
  }

  /** The drain as the loop runs it: it ends, and only when nobody in line could go. */
  ghost function DrainAll(l: Loop, chains: Chains): (settled: Loop)
    requires LineInv(l, chains)
    ensures settled.idle && NextUp(settled.pools).None?
    decreases |l.pools.queue|
  {
    if NextUp(l.pools).None? then Drained(l)
    else
      DrainLine(l, chains);
      NextIsHeld(l, chains);
      AdmitNextShrinks(l.pools);
      DrainAll(Drained(l), chains)
  }
}
