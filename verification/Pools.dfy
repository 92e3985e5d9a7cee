/**
  Concurrency pools: limits, active counts and the line of waiters.

  A request is admitted through every pool of its chain at once or waits; and
  whoever has waited longest among those that fit goes first.
*/
module Pools {
  import opened Wrappers

  type Name = string

  // A capacity of zero is no limit.
  datatype Pool = Pool(name: Name, capacity: nat, active: nat) {
    predicate HasRoom() {
      capacity == 0 || active < capacity
    }
  }

  datatype Waiter = Waiter(ticket: nat, chain: seq<Name>)
  datatype State = State(pools: seq<Pool>, queue: seq<Waiter>, next: nat)

  const NoPools := State([], [], 0)

  // ---- Decisions -----------------------------------------------------------------------------

  /** Every pool of the chain has room. */
  predicate ChainHasRoom(pools: seq<Pool>, chain: seq<Name>) {
    forall i :: 0 <= i < |pools| && pools[i].name in chain ==> pools[i].HasRoom()
  }

  function Take(pools: seq<Pool>, chain: seq<Name>): (taken: seq<Pool>)
    ensures |taken| == |pools|
  {
    seq(|pools|, i requires 0 <= i < |pools| =>
      if pools[i].name in chain then pools[i].(active := pools[i].active + 1) else pools[i])
  }

  function GiveBack(pools: seq<Pool>, chain: seq<Name>): (given: seq<Pool>)
    ensures |given| == |pools|
  {
    seq(|pools|, i requires 0 <= i < |pools| =>
      if pools[i].name in chain && pools[i].active > 0 then pools[i].(active := pools[i].active - 1) else pools[i])
  }

  /** The first waiter whose whole chain has room. */
  function FirstThatFits(pools: seq<Pool>, queue: seq<Waiter>): Option<Waiter> {
    if queue == [] then None
    else if ChainHasRoom(pools, queue[0].chain) then Some(queue[0])
    else FirstThatFits(pools, queue[1..])
  }

  function NextUp(s: State): Option<Waiter> {
    FirstThatFits(s.pools, s.queue)
  }

  function WithoutTicket(queue: seq<Waiter>, ticket: nat): seq<Waiter> {
    if queue == [] then []
    else (if queue[0].ticket == ticket then [] else [queue[0]]) + WithoutTicket(queue[1..], ticket)
  }

  function Admitted(s: State, w: Waiter): State {
    State(Take(s.pools, w.chain), WithoutTicket(s.queue, w.ticket), s.next)
  }

  function AdmitNext(s: State): Option<(nat, State)> {
    match NextUp(s)
    case None => None
    case Some(w) => Some((w.ticket, Admitted(s, w)))
  }

  function Names(pools: seq<Pool>): set<Name> {
    set p | p in pools :: p.name
  }

  function FirstUnknown(pools: seq<Pool>, chain: seq<Name>): Option<Name> {
    if chain == [] then None
    else if chain[0] !in Names(pools) then Some(chain[0])
    else FirstUnknown(pools, chain[1..])
  }

  datatype Arrived = Entered(state: State) | Queued(state: State, ticket: nat) | UnknownPool(name: Name)

  /** Joins the line, and leaves it at once if it is itself who goes next. */
  function Arrive(s: State, chain: seq<Name>): Arrived {
    match FirstUnknown(s.pools, chain)
    case Some(name) => UnknownPool(name)
    case None =>
      var joined := State(s.pools, s.queue + [Waiter(s.next, chain)], s.next + 1);
      match NextUp(joined)
      case Some(w) =>
        if w.ticket == s.next then Entered(Admitted(joined, w)) else Queued(joined, s.next)
      case None => Queued(joined, s.next)
  }

  function Leave(s: State, ticket: nat): State {
    s.(queue := WithoutTicket(s.queue, ticket))
  }

  function Release(s: State, chain: seq<Name>): State {
    s.(pools := GiveBack(s.pools, chain))
  }

  function SetCapacity(s: State, name: Name, capacity: nat): State {
    if name in Names(s.pools) then
      s.(pools := seq(|s.pools|, i requires 0 <= i < |s.pools| =>
        if s.pools[i].name == name then s.pools[i].(capacity := capacity) else s.pools[i]))
    else s.(pools := s.pools + [Pool(name, capacity, 0)])
  }

  /** The limit in force: the smaller of the operator's and the cartridge's own, zero being no limit. */
  function Effective(configured: nat, available: nat): nat {
    if configured == 0 then available
    else if available == 0 || configured < available then configured else available
  }

  // ---- The line -------------------------------------------------------------------------------

  function Tickets(queue: seq<Waiter>): set<nat> {
    set w | w in queue :: w.ticket
  }

  /** Tickets ascend with arrival, so the order of the line is the order of arrival. */
  predicate InOrder(s: State) {
    (forall i, j :: 0 <= i < j < |s.queue| ==> s.queue[i].ticket < s.queue[j].ticket)
    && (forall i :: 0 <= i < |s.queue| ==> s.queue[i].ticket < s.next)
  }

  predicate DistinctNames(pools: seq<Pool>) {
    forall i, j :: 0 <= i < j < |pools| ==> pools[i].name != pools[j].name
  }

  lemma {:induction false} FitsFirst(pools: seq<Pool>, queue: seq<Waiter>)
    ensures match FirstThatFits(pools, queue)
            case None => forall w :: w in queue ==> !ChainHasRoom(pools, w.chain)
            case Some(w) =>
              exists i :: 0 <= i < |queue| && queue[i] == w && ChainHasRoom(pools, w.chain)
                          && forall j :: 0 <= j < i ==> !ChainHasRoom(pools, queue[j].chain)
  {
    if queue != [] {
      FitsFirst(pools, queue[1..]);
      assert queue == [queue[0]] + queue[1..];
      if ChainHasRoom(pools, queue[0].chain) {
        assert queue[0] == FirstThatFits(pools, queue).value;
      } else if FirstThatFits(pools, queue).Some? {
        var w := FirstThatFits(pools, queue).value;
        var i :| 0 <= i < |queue| - 1 && queue[1..][i] == w
                 && forall j :: 0 <= j < i ==> !ChainHasRoom(pools, queue[1..][j].chain);
        assert queue[i + 1] == w;
        forall j | 0 <= j < i + 1
          ensures !ChainHasRoom(pools, queue[j].chain)
        {
          assert j > 0 ==> queue[j] == queue[1..][j - 1];
        }
      }
    }
  }

  /** In numbers: with one request more, no pool of the chain is past its limit. */
  predicate Fits(pools: seq<Pool>, chain: seq<Name>) {
    forall i :: 0 <= i < |pools| && pools[i].name in chain ==>
      pools[i].capacity == 0 || pools[i].active + 1 <= pools[i].capacity
  }

  lemma RoomIsFits(pools: seq<Pool>)
    ensures forall chain :: ChainHasRoom(pools, chain) <==> Fits(pools, chain)
  {
  }

  /** Who goes next has waited longer than anyone else who fits; nobody goes only when nobody does. */
  lemma NextUpIsEarliest(s: State)
    requires InOrder(s)
    ensures match NextUp(s)
            case None => forall w :: w in s.queue ==> !Fits(s.pools, w.chain)
            case Some(w) =>
              w in s.queue && Fits(s.pools, w.chain)
              && forall v :: v in s.queue && Fits(s.pools, v.chain) ==> w.ticket <= v.ticket
  {
    RoomIsFits(s.pools);
    hide ChainHasRoom, Fits;
    FitsFirst(s.pools, s.queue);
  }

  lemma {:induction false} WithoutTicketSplits(queue: seq<Waiter>, ticket: nat, w: Waiter)
    ensures w in WithoutTicket(queue, ticket) <==> w in queue && w.ticket != ticket
  {
    if queue != [] {
      WithoutTicketSplits(queue[1..], ticket, w);
      assert queue == [queue[0]] + queue[1..];
    }
  }

  lemma WithoutTicketTickets(queue: seq<Waiter>, ticket: nat)
    ensures Tickets(WithoutTicket(queue, ticket)) == Tickets(queue) - {ticket}
  {
    forall t
      ensures t in Tickets(WithoutTicket(queue, ticket)) <==> t in Tickets(queue) - {ticket}
    {
      forall w: Waiter
        ensures w in WithoutTicket(queue, ticket) <==> w in queue && w.ticket != ticket
      {
        WithoutTicketSplits(queue, ticket, w);
      }
    }
  }

  lemma {:induction false} WithoutTicketInOrder(queue: seq<Waiter>, ticket: nat, next: nat, pools: seq<Pool>)
    requires InOrder(State(pools, queue, next))
    ensures InOrder(State(pools, WithoutTicket(queue, ticket), next))
  {
    if queue != [] {
      var rest := WithoutTicket(queue[1..], ticket);
      WithoutTicketInOrder(queue[1..], ticket, next, pools);
      forall j | 0 <= j < |rest|
        ensures queue[0].ticket < rest[j].ticket
      {
        WithoutTicketSplits(queue[1..], ticket, rest[j]);
      }
    }
  }

  lemma {:induction false} WithoutTicketShrinks(queue: seq<Waiter>, ticket: nat)
    ensures |WithoutTicket(queue, ticket)| <= |queue|
    ensures ticket in Tickets(queue) ==> |WithoutTicket(queue, ticket)| < |queue|
  {
    if queue != [] {
      WithoutTicketShrinks(queue[1..], ticket);
      assert queue == [queue[0]] + queue[1..];
    }
  }

  /** Admitting the next shortens the line, so draining it ends. */
  lemma AdmitNextShrinks(s: State)
    requires InOrder(s) && AdmitNext(s).Some?
    ensures |AdmitNext(s).value.1.queue| < |s.queue|
  {
    NextUpIsEarliest(s);
    WithoutTicketShrinks(s.queue, NextUp(s).value.ticket);
  }

  /** A waiter whose chain has room is admitted through every pool of it, never past a limit and never in part. */
  lemma AdmissionIsWhole(s: State, i: nat)
    requires InOrder(s) && AdmitNext(s).Some? && i < |s.pools|
    ensures var w := NextUp(s).value;
            var (before, after) := (s.pools[i], AdmitNext(s).value.1.pools[i]);
            after.name == before.name && after.capacity == before.capacity
            && after.active == before.active + (if before.name in w.chain then 1 else 0)
            && (before.name in w.chain && before.capacity > 0 ==> after.active <= before.capacity)
  {
    NextUpIsEarliest(s);
  }

  lemma {:induction false} FirstUnknownIff(pools: seq<Pool>, chain: seq<Name>)
    ensures FirstUnknown(pools, chain).None? <==> forall n :: n in chain ==> n in Names(pools)
  {
    if chain != [] {
      FirstUnknownIff(pools, chain[1..]);
      assert chain == [chain[0]] + chain[1..];
    }
  }

  lemma {:induction false} FitsFirstAppend(pools: seq<Pool>, queue: seq<Waiter>, last: Waiter)
    ensures FirstThatFits(pools, queue + [last])
         == if FirstThatFits(pools, queue).Some? then FirstThatFits(pools, queue)
            else if ChainHasRoom(pools, last.chain) then Some(last) else None
  {
    if queue != [] {
      assert (queue + [last])[1..] == queue[1..] + [last];
      FitsFirstAppend(pools, queue[1..], last);
    }
  }

  /** A newcomer goes in at once exactly when it fits and nobody in line does. */
  lemma ArriveEntersIff(s: State, chain: seq<Name>)
    requires InOrder(s) && FirstUnknown(s.pools, chain).None?
    ensures Arrive(s, chain).Entered? <==> Fits(s.pools, chain) && forall w :: w in s.queue ==> !Fits(s.pools, w.chain)
    ensures Arrive(s, chain).Entered? ==>
              Arrive(s, chain).state == State(Take(s.pools, chain), s.queue, s.next + 1)
  {
    hide FirstThatFits, ChainHasRoom, Fits, WithoutTicket, Take, FirstUnknown;
    var last := Waiter(s.next, chain);
    RoomIsFits(s.pools);
    FitsFirstAppend(s.pools, s.queue, last);
    NextUpIsEarliest(s);
    assert forall w :: w in s.queue ==> w.ticket < s.next;
    DropLast(s.queue, last);
  }

  lemma ArriveQueues(s: State, chain: seq<Name>)
    requires FirstUnknown(s.pools, chain).None? && !Arrive(s, chain).Entered?
    ensures Arrive(s, chain) == Queued(State(s.pools, s.queue + [Waiter(s.next, chain)], s.next + 1), s.next)
  {
  }

  lemma {:induction false} DropLast(queue: seq<Waiter>, last: Waiter)
    requires forall i :: 0 <= i < |queue| ==> queue[i].ticket != last.ticket
    ensures WithoutTicket(queue + [last], last.ticket) == queue
  {
    if queue == [] {
      assert [last][1..] == [];
    } else {
      assert (queue + [last])[1..] == queue[1..] + [last];
      DropLast(queue[1..], last);
    }
  }

  /** With nothing running anywhere every chain has room: whoever waits, one can go. */
  lemma IdlePoolsAdmit(s: State)
    requires forall i :: 0 <= i < |s.pools| ==> s.pools[i].active == 0
    ensures NextUp(s).None? <==> s.queue == []
  {
    if s.queue != [] {
      assert ChainHasRoom(s.pools, s.queue[0].chain);
    }
  }

  // ---- How many run -----------------------------------------------------------------------------

  /** n requests for one chain arrive, and none ends: the state after, and how many went in at once. */
  function ArriveAll(s: State, chain: seq<Name>, n: nat): (State, nat) {
    if n == 0 then (s, 0)
    else
      var (t, started) := ArriveAll(s, chain, n - 1);
      var arrived := Arrive(t, chain);
      (if arrived.UnknownPool? then t else arrived.state, if arrived.Entered? then started + 1 else started)
  }

  /** After k of n arrivals have gone in: k slots of each pool of the chain, and a line only if nobody fits. */
  ghost predicate Filled(s: State, chain: seq<Name>, k: nat, t: State) {
    InOrder(t) && |t.pools| == |s.pools|
    && (forall i :: 0 <= i < |s.pools| ==>
          t.pools[i] == s.pools[i].(active := s.pools[i].active + if s.pools[i].name in chain then k else 0))
    && (forall w :: w in t.queue ==> w.chain == chain) && (t.queue != [] ==> !Fits(t.pools, chain))
  }

  lemma ArrivalsStep(s: State, chain: seq<Name>, k: nat, t: State)
    requires Filled(s, chain, k, t) && FirstUnknown(s.pools, chain).None?
    ensures var arrived := Arrive(t, chain);
            !arrived.UnknownPool? && (arrived.Entered? <==> Fits(t.pools, chain))
            && Filled(s, chain, if arrived.Entered? then k + 1 else k, arrived.state)
            && |arrived.state.queue| == |t.queue| + if arrived.Entered? then 0 else 1
  {
    hide FirstUnknown, Names, Arrive, Fits;
    FirstUnknownIff(s.pools, chain);
    FirstUnknownIff(t.pools, chain);
    SameNames(s.pools, t.pools);
    ArriveEntersIff(t, chain);
    if Arrive(t, chain).Entered? {
      EnteredFills(s, chain, k, t);
    } else {
      ArriveQueues(t, chain);
      if t.queue == [] {
        assert !Fits(t.pools, chain);
      }
    }
  }

  lemma EnteredFills(s: State, chain: seq<Name>, k: nat, t: State)
    requires Filled(s, chain, k, t) && t.queue == []
    ensures Filled(s, chain, k + 1, State(Take(t.pools, chain), [], t.next + 1))
  {
    hide Fits;
  }

  /** No limit of the chain is passed, and one of them is what stopped the next. */
  ghost predicate AtTightest(s: State, chain: seq<Name>, started: nat, stopped: bool) {
    (forall p :: p in s.pools && p.name in chain && p.capacity > 0 ==> started <= p.capacity)
    && (stopped ==> exists p :: p in s.pools && p.name in chain && p.capacity > 0 && started == p.capacity)
  }

  lemma TightestStep(s: State, chain: seq<Name>, k: nat, t: State)
    requires Filled(s, chain, k, t) && forall i :: 0 <= i < |s.pools| ==> s.pools[i].active == 0
    requires AtTightest(s, chain, k, false)
    ensures AtTightest(s, chain, if Fits(t.pools, chain) then k + 1 else k, !Fits(t.pools, chain))
  {
    if Fits(t.pools, chain) {
      forall p | p in s.pools && p.name in chain && p.capacity > 0
        ensures k + 1 <= p.capacity
      {
        var i :| 0 <= i < |s.pools| && s.pools[i] == p;
        assert t.pools[i].active == k;
      }
    } else {
      var i :| 0 <= i < |t.pools| && t.pools[i].name in chain
               && t.pools[i].capacity > 0 && t.pools[i].active + 1 > t.pools[i].capacity;
      assert s.pools[i] in s.pools && s.pools[i].capacity == k;
    }
  }

  /**
    With nothing running, n requests for one chain fill it exactly: as many go in as the
    tightest limit of its pools allows, or all of them if there is none, and the others
    are in line.
  */
  lemma {:induction false} ArrivalsFill(s: State, chain: seq<Name>, n: nat)
    requires InOrder(s) && s.queue == [] && FirstUnknown(s.pools, chain).None?
    requires forall i :: 0 <= i < |s.pools| ==> s.pools[i].active == 0
    ensures var (t, started) := ArriveAll(s, chain, n);
            Filled(s, chain, started, t) && started + |t.queue| == n && AtTightest(s, chain, started, started < n)
  {
    hide Fits, FirstUnknown, Arrive, InOrder;
    if n > 0 {
      ArrivalsFill(s, chain, n - 1);
      var (t, started) := ArriveAll(s, chain, n - 1);
      ArrivalsStep(s, chain, started, t);
      hide Filled;
      TightestStep(s, chain, started, t);
    }
  }

  // ---- The object -------------------------------------------------------------------------------

  type Pattern = string
  type Rid = nat

  datatype Request = Request(rid: Rid, pattern: Pattern)
  datatype Limits = Limits(configured: nat, available: nat)

  /** What a limit in force must be: none if neither side sets one, else the tightest of those that are set. */
  predicate InForce(capacity: nat, l: Limits) {
    (capacity == 0 <==> l.configured == 0 && l.available == 0)
    && (l.configured > 0 ==> capacity <= l.configured) && (l.available > 0 ==> capacity <= l.available)
    && (capacity > 0 ==> capacity == l.configured || capacity == l.available)
  }

  /** Every pool's capacity is the limit in force for it. */
  ghost predicate LimitsHold(pools: seq<Pool>, limits: map<Name, Limits>) {
    limits.Keys == Names(pools)
    && forall i :: 0 <= i < |pools| ==> pools[i].name in limits && InForce(pools[i].capacity, limits[pools[i].name])
  }

  lemma LimitsKept(pools: seq<Pool>, after: seq<Pool>, limits: map<Name, Limits>)
    requires LimitsHold(pools, limits) && |after| == |pools|
    requires forall i :: 0 <= i < |pools| ==> after[i].name == pools[i].name && after[i].capacity == pools[i].capacity
    ensures LimitsHold(after, limits)
  {
    SameNames(pools, after);
    hide InForce;
  }

  /** A new limit takes effect at once, on the pool it is for and on no other. */
  lemma LimitTakesEffect(s: State, name: Name, limits: map<Name, Limits>, l: Limits)
    requires LimitsHold(s.pools, limits) && name in limits
    ensures var after := SetCapacity(s, name, Effective(l.configured, l.available));
            LimitsHold(after.pools, limits[name := l]) && SameButLimit(s, after, {name})
  {
    var after := SetCapacity(s, name, Effective(l.configured, l.available));
    SameNames(s.pools, after.pools);
    assert limits[name := l].Keys == limits.Keys;
  }

  ghost predicate LineHeld(s: State, waiting: map<nat, Request>, chains: map<Pattern, seq<Name>>) {
    waiting.Keys == Tickets(s.queue)
    && forall w :: w in s.queue ==> waiting[w.ticket].pattern in chains && w.chain == chains[waiting[w.ticket].pattern]
  }

  ghost predicate ChainsKnown(s: State, chains: map<Pattern, seq<Name>>) {
    forall p :: p in chains ==> FirstUnknown(s.pools, chains[p]).None?
  }

  lemma QueuedHeld(s: State, waiting: map<nat, Request>, chains: map<Pattern, seq<Name>>, r: Request)
    requires InOrder(s) && LineHeld(s, waiting, chains) && r.pattern in chains
    ensures var queued := State(s.pools, s.queue + [Waiter(s.next, chains[r.pattern])], s.next + 1);
            InOrder(queued) && LineHeld(queued, waiting[s.next := r], chains)
  {
    var queued := State(s.pools, s.queue + [Waiter(s.next, chains[r.pattern])], s.next + 1);
    forall t
      ensures t in Tickets(queued.queue) <==> t in Tickets(s.queue) + {s.next}
    {
      assert queued.queue[|s.queue|] == Waiter(s.next, chains[r.pattern]);
      if t in Tickets(s.queue) {
        var w :| w in s.queue && w.ticket == t;
        assert w in queued.queue;
      }
    }
    forall w | w in queued.queue
      ensures var m := waiting[s.next := r]; m[w.ticket].pattern in chains && w.chain == chains[m[w.ticket].pattern]
    {
      if w in s.queue {
        assert w.ticket in Tickets(s.queue);
      }
    }
  }

  lemma RemovedHeld(s: State, waiting: map<nat, Request>, chains: map<Pattern, seq<Name>>, ticket: nat,
                    pools: seq<Pool>)
    requires InOrder(s) && LineHeld(s, waiting, chains)
    ensures var left := State(pools, WithoutTicket(s.queue, ticket), s.next);
            InOrder(left) && LineHeld(left, waiting - {ticket}, chains)
  {
    WithoutTicketTickets(s.queue, ticket);
    WithoutTicketInOrder(s.queue, ticket, s.next, pools);
    forall w | w in WithoutTicket(s.queue, ticket)
      ensures w in s.queue && w.ticket != ticket && w.ticket in waiting
    {
      WithoutTicketSplits(s.queue, ticket, w);
      assert w.ticket in Tickets(s.queue);
    }
  }

  lemma SameNames(pools: seq<Pool>, after: seq<Pool>)
    requires |after| == |pools| && forall i :: 0 <= i < |pools| ==> after[i].name == pools[i].name
    ensures Names(after) == Names(pools) && (DistinctNames(pools) ==> DistinctNames(after))
  {
    forall n
      ensures n in Names(after) <==> n in Names(pools)
    {
      if n in Names(pools) {
        var i :| 0 <= i < |pools| && pools[i].name == n;
        assert after[i] in after;
      }
      if n in Names(after) {
        var i :| 0 <= i < |after| && after[i].name == n;
        assert pools[i] in pools;
      }
    }
  }

  lemma TakeKeepsNames(pools: seq<Pool>, chain: seq<Name>)
    ensures Names(Take(pools, chain)) == Names(pools)
    ensures DistinctNames(pools) ==> DistinctNames(Take(pools, chain))
  {
    SameNames(pools, Take(pools, chain));
  }

  lemma SameNamesKnown(s: State, pools: seq<Pool>, chains: map<Pattern, seq<Name>>)
    requires ChainsKnown(s, chains) && Names(pools) == Names(s.pools)
    ensures ChainsKnown(s.(pools := pools), chains)
  {
    forall p | p in chains
      ensures FirstUnknown(pools, chains[p]).None?
    {
      FirstUnknownIff(s.pools, chains[p]);
      FirstUnknownIff(pools, chains[p]);
    }
  }

  lemma TakeKeepsLimits(pools: seq<Pool>, chain: seq<Name>, limits: map<Name, Limits>)
    requires LimitsHold(pools, limits)
    ensures LimitsHold(Take(pools, chain), limits) && LimitsHold(GiveBack(pools, chain), limits)
  {
    LimitsKept(pools, Take(pools, chain), limits);
    LimitsKept(pools, GiveBack(pools, chain), limits);
  }

  /** The line and the slots taken are as they were, and so is the limit of every pool but those named. */
  predicate SameButLimit(s: State, t: State, names: set<Name>) {
    t.queue == s.queue && t.next == s.next && |t.pools| == |s.pools|
    && forall i :: 0 <= i < |s.pools| ==>
         t.pools[i].name == s.pools[i].name && t.pools[i].active == s.pools[i].active
         && (s.pools[i].name !in names ==> t.pools[i].capacity == s.pools[i].capacity)
  }

  /** The limits once the operator's are taken over for some of the pools. */
  function Desired(limits: map<Name, Limits>, desired: map<Name, nat>, done: set<Name>): map<Name, Limits> {
    map n | n in limits :: if n in done && n in desired then limits[n].(configured := desired[n]) else limits[n]
  }

  lemma DesiredNone(limits: map<Name, Limits>, desired: map<Name, nat>)
    ensures Desired(limits, desired, {}) == limits
  {
  }

  lemma DesiredOneMore(limits: map<Name, Limits>, desired: map<Name, nat>, done: set<Name>, name: Name)
    requires name in limits && name in desired && name !in done
    ensures var before := Desired(limits, desired, done);
            name in before
            && Desired(limits, desired, done + {name}) == before[name := before[name].(configured := desired[name])]
  {
  }

  lemma SameButLimitSame(s: State, names: set<Name>)
    ensures SameButLimit(s, s, names)
  {
  }

  lemma SameButLimitChain(s: State, t: State, u: State, some: set<Name>, names: set<Name>)
    requires SameButLimit(s, t, names) && SameButLimit(t, u, some) && some <= names
    ensures SameButLimit(s, u, names)
  {
  }

  datatype Admission = Running(request: Request) | InLine(ticket: nat)

  class RuntimePools {
    var state: State
    var waiting: map<nat, Request>
    var limits: map<Name, Limits>
    const chains: map<Pattern, seq<Name>>

    ghost predicate Valid()
      reads this
    {
      InOrder(state) && LineHeld(state, waiting, chains) && ChainsKnown(state, chains)
      && DistinctNames(state.pools) && LimitsHold(state.pools, limits)
    }

    /** Every pool with the limit in force for it, and nobody active or in line. */
    constructor (names: seq<Name>, declared: map<Name, Limits>, chains: map<Pattern, seq<Name>>)
      requires forall i :: 0 <= i < |names| ==> names[i] in declared
      requires declared.Keys == (set n | n in names)
      requires forall p, n :: p in chains && n in chains[p] ==> n in declared
      ensures Valid() && this.chains == chains && limits == declared && state.queue == []
      ensures forall i :: 0 <= i < |state.pools| ==> state.pools[i].active == 0
    {
      this.chains := chains;
      limits := declared;
      waiting := map[];
      state := NoPools;
      new;
      for k := 0 to |names|
        invariant state.queue == [] && state.next == 0 && waiting == map[] && limits == declared
        invariant DistinctNames(state.pools) && Names(state.pools) == (set n | n in names[..k])
        invariant forall i :: 0 <= i < |state.pools| ==> state.pools[i].active == 0
        invariant forall i :: 0 <= i < |state.pools| ==>
                    state.pools[i].name in limits && InForce(state.pools[i].capacity, limits[state.pools[i].name])
      {
        ghost var was := state.pools;
        state := SetCapacity(state, names[k], Effective(declared[names[k]].configured, declared[names[k]].available));
        assert names[..k + 1] == names[..k] + [names[k]];
        if names[k] in Names(was) {
          SameNames(was, state.pools);
        } else {
          NewName(was, state.pools[|was|]);
        }
      }
      assert names[..|names|] == names;
      forall p | p in chains
        ensures FirstUnknown(state.pools, chains[p]).None?
      {
        FirstUnknownIff(state.pools, chains[p]);
      }
    }

    method AcceptRequest(request: Request) returns (a: Admission)
      requires Valid() && request.pattern in chains
      modifies this`state, this`waiting
      ensures Valid()
      ensures match Arrive(old(state), chains[request.pattern])
              case Entered(s) => a == Running(request) && state == s && waiting == old(waiting)
              case Queued(s, ticket) => a == InLine(ticket) && state == s && waiting == old(waiting)[ticket := request]
              case UnknownPool(_) => false
    {
      hide NextUp, Take, ChainHasRoom, FirstThatFits, WithoutTicket, FirstUnknown;
      var chain := chains[request.pattern];
      match Arrive(state, chain) {
        case Entered(s) =>
          ArriveEntersIff(state, chain);
          TakeKeepsNames(state.pools, chain);
          TakeKeepsLimits(state.pools, chain, limits);
          SameNamesKnown(state, Take(state.pools, chain), chains);
          state := s;
          a := Running(request);
        case Queued(s, ticket) =>
          QueuedHeld(state, waiting, chains, request);
          SameNamesKnown(state, state.pools, chains);
          state := s;
          waiting := waiting[ticket := request];
          a := InLine(ticket);
        case UnknownPool(_) =>
          assert false;
      }
    }

    /** One dispatch of `pattern` gives its slots back.  Every pool of the chain must have one to give. */
    method ReleasePattern(pattern: Pattern)
      requires Valid() && pattern in chains
      requires forall i :: 0 <= i < |state.pools| && state.pools[i].name in chains[pattern] ==>
                 state.pools[i].active > 0
      modifies this`state
      ensures Valid() && state == Release(old(state), chains[pattern])
    {
      SameNames(state.pools, GiveBack(state.pools, chains[pattern]));
      TakeKeepsLimits(state.pools, chains[pattern], limits);
      SameNamesKnown(state, GiveBack(state.pools, chains[pattern]), chains);
      state := Release(state, chains[pattern]);
    }

    method RemoveQueued(rid: Rid) returns (removed: Option<Request>, ghost ticket: nat)
      requires Valid()
      modifies this`state, this`waiting
      ensures Valid()
      ensures removed.None? ==>
                state == old(state) && waiting == old(waiting) && forall t :: t in waiting ==> waiting[t].rid != rid
      ensures removed.Some? ==>
                ticket in old(waiting) && removed.value == old(waiting)[ticket] && removed.value.rid == rid
                && state == Leave(old(state), ticket) && waiting == old(waiting) - {ticket}
    {
      hide LimitsHold, FirstUnknown, InOrder, LineHeld, WithoutTicket, DistinctNames;
      if t :| t in waiting && waiting[t].rid == rid {
        RemovedHeld(state, waiting, chains, t, state.pools);
        SameNamesKnown(state, state.pools, chains);
        removed, ticket := Some(waiting[t]), t;
        state := Leave(state, t);
        waiting := waiting - {t};
      } else {
        removed, ticket := None, 0;
      }
    }

    /** Whoever is next; the ticket of someone in line is always one whose request is held. */
    method AdmitOne() returns (next: Option<Request>)
      requires Valid()
      modifies this`state, this`waiting
      ensures Valid()
      ensures match AdmitNext(old(state))
              case None => next == None && state == old(state) && waiting == old(waiting)
              case Some((ticket, s)) =>
                ticket in old(waiting) && next == Some(old(waiting)[ticket])
                && state == s && waiting == old(waiting) - {ticket}
    {
      hide LimitsHold, FirstUnknown, FirstThatFits, Take, Fits;
      var admitted := AdmitNext(state);
      if admitted.None? {
        return None;
      }
      var (ticket, after) := admitted.value;
      NextUpIsEarliest(state);
      assert ticket in Tickets(state.queue);
      RemovedHeld(state, waiting, chains, ticket, after.pools);
      TakeKeepsNames(state.pools, NextUp(state).value.chain);
      SameNamesKnown(state, after.pools, chains);
      TakeKeepsLimits(state.pools, NextUp(state).value.chain, limits);
      next := Some(waiting[ticket]);
      state := after;
      waiting := waiting - {ticket};
    }

    /** A pool's numbers change: its new limit is in force at once, and no other pool's moves. */
    method LimitChanged(name: Name, l: Limits)
      requires Valid() && name in limits
      modifies this`state, this`limits
      ensures Valid() && limits == old(limits)[name := l]
      ensures state == SetCapacity(old(state), name, Effective(l.configured, l.available))
      ensures SameButLimit(old(state), state, {name})
    {
      LimitTakesEffect(state, name, limits, l);
      limits := limits[name := l];
      var after := SetCapacity(state, name, Effective(l.configured, l.available));
      hide SetCapacity, Effective;
      SameNames(state.pools, after.pools);
      SameNamesKnown(state, after.pools, chains);
      state := after;
    }

    /** The operator's limits, all of them or, if one names an unknown pool, none. */
    method ApplyDesired(desired: map<Name, nat>) returns (ok: bool)
      requires Valid()
      modifies this`state, this`limits
      ensures Valid() && ok == (desired.Keys <= old(limits).Keys)
      ensures !ok ==> state == old(state) && limits == old(limits)
      ensures ok ==>
                SameButLimit(old(state), state, desired.Keys)
                && limits == Desired(old(limits), desired, desired.Keys)
    {
      hide LimitsHold, InOrder, LineHeld, ChainsKnown, DistinctNames, SetCapacity, Effective, SameButLimit, Desired;
      ok := desired.Keys <= limits.Keys;
      if !ok {
        return;
      }
      SameButLimitSame(state, desired.Keys);
      DesiredNone(limits, desired);
      var todo := desired.Keys;
      assert desired.Keys - todo == {};
      while todo != {}
        invariant Valid() && todo <= desired.Keys && limits == Desired(old(limits), desired, desired.Keys - todo)
        invariant SameButLimit(old(state), state, desired.Keys)
        decreases todo
      {
        var name :| name in todo;
        ghost var before := state;
        DesiredOneMore(old(limits), desired, desired.Keys - todo, name);
        LimitChanged(name, limits[name].(configured := desired[name]));
        SameButLimitChain(old(state), before, state, {name}, desired.Keys);
        assert desired.Keys - (todo - {name}) == (desired.Keys - todo) + {name};
        todo := todo - {name};
      }
      assert desired.Keys - todo == desired.Keys;
    }

    /** The cartridge reports what it can serve; an unknown pool changes nothing. */
    method SetAvailable(name: Name, available: nat) returns (known: bool)
      requires Valid()
      modifies this`state, this`limits
      ensures Valid() && known == (name in old(limits))
      ensures !known ==> state == old(state) && limits == old(limits)
      ensures known ==>
                limits == old(limits)[name := old(limits)[name].(available := available)]
                && SameButLimit(old(state), state, {name})
                && state == SetCapacity(old(state), name, Effective(old(limits)[name].configured, available))
    {
      known := name in limits;
      if known {
        LimitChanged(name, limits[name].(available := available));
      }
    }
  }

  lemma NewName(pools: seq<Pool>, p: Pool)
    requires DistinctNames(pools) && p.name !in Names(pools)
    ensures DistinctNames(pools + [p]) && Names(pools + [p]) == Names(pools) + {p.name}
  {
    forall i | 0 <= i < |pools|
      ensures pools[i].name != p.name
    {
      assert pools[i] in pools;
    }
    forall n
      ensures n in Names(pools + [p]) <==> n in Names(pools) + {p.name}
    {
      assert (pools + [p])[|pools|] == p;
      if n in Names(pools) {
        var q :| q in pools && q.name == n;
        assert q in pools + [p];
      }
    }
  }
}
