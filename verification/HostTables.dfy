/**
  The host's routing tables as the host holds them, updated in place.

  `Tables` of `RoutingTables` is the state of the object as a value.  Each handler
  is proved to make a move of that model, so what `RoutingRuns` proves of every
  run of moves holds of every sequence of calls.  The collector's loops are
  proved to leave a table in the relation `Collected` to what it was.
*/
module HostTables {
  import opened Frames
  import opened RoutingTables
  import opened RoutingRuns
  import opened Wrappers

  // ---- The collector -----------------------------------------------------------------------------

  /** The state of a collection: what is gone is older than what is left, in the table and in its touched-at map. */
  ghost predicate Collecting<K(!new), V>(table: map<K, V>, touched: map<K, Time>, gone: set<K>,
                                         left: map<K, V>, leftTouched: map<K, Time>) {
    OldestFirst(table.Keys, gone, touched) && left == table - gone && leftTouched == touched - gone
  }

  lemma CollectingStarts<K(!new), V>(table: map<K, V>, touched: map<K, Time>)
    ensures Collecting(table, touched, {}, table, touched)
  {
    assert table - {} == table && touched - {} == touched;
  }

  /** Taking the oldest of what is left. */
  lemma CollectingStep<K(!new), V>(table: map<K, V>, touched: map<K, Time>, gone: set<K>,
                                   left: map<K, V>, leftTouched: map<K, Time>, k: K)
    requires Collecting(table, touched, gone, left, leftTouched)
    requires k in left && forall j :: j in left ==> Age(leftTouched, k) <= Age(leftTouched, j)
    ensures Collecting(table, touched, gone + {k}, left - {k}, leftTouched - {k})
    ensures |left - {k}| == |left| - 1
  {
    forall j | j in left
      ensures Age(leftTouched, j) == Age(touched, j)
    {
    }
    Without(left, k);
    assert left - {k} == table - (gone + {k});
    assert leftTouched - {k} == touched - (gone + {k});
  }

  /** The n oldest entries of what is left, or all of it, on top of those already gone. */
  method EvictOldest<K(!new, ==), V>(ghost table: map<K, V>, ghost touched: map<K, Time>, ghost gone: set<K>,
                                     from: map<K, V>, fromTouched: map<K, Time>, n: nat)
    returns (left: map<K, V>, leftTouched: map<K, Time>, ghost victims: set<K>)
    requires Collecting(table, touched, gone, from, fromTouched)
    ensures Collecting(table, touched, victims, left, leftTouched)
    ensures |left| == if n < |from| then |from| - n else 0
  {
    hide Collecting, Age;
    left, leftTouched, victims := from, fromTouched, gone;
    var i := 0;
    while i < n && |left| > 0
      invariant 0 <= i <= n && |left| == |from| - i
      invariant Collecting(table, touched, victims, left, leftTouched)
    {
      var k := Oldest(left, leftTouched);
      CollectingStep(table, touched, victims, left, leftTouched, k);
      left, leftTouched := left - {k}, leftTouched - {k};
      victims := victims + {k};
      i := i + 1;
    }
  }

  method Oldest<K(!new, ==), V>(table: map<K, V>, touched: map<K, Time>) returns (k: K)
    requires |table| > 0
    ensures k in table && forall j :: j in table ==> Age(touched, k) <= Age(touched, j)
  {
    assert table.Keys != {};
    ghost var oldest := SomeOldest(table.Keys, touched);
    k :| k in table.Keys && forall j :: j in table.Keys ==> Age(touched, k) <= Age(touched, j);
  }

  lemma Without<K, V>(m: map<K, V>, k: K)
    requires k in m
    ensures |m - {k}| == |m| - 1
  {
    assert (m - {k}).Keys == m.Keys - {k};
  }

  /** One table's collection: a quarter, and from the hard cap up all the way to the watermark; counted exactly. */
  method CollectTable<K(!new, ==), V>(table: map<K, V>, touched: map<K, Time>)
    returns (left: map<K, V>, leftTouched: map<K, Time>, evicted: nat, ghost victims: set<K>)
    requires table != map[]
    ensures |left| == |table| - evicted && evicted == Evictions(|table|) && |left| < HARD_CAP
    ensures Collecting(table, touched, victims, left, leftTouched)
  {
    hide Collecting;
    var beforeCount := |table|;
    assert |table.Keys| >= 1;
    evicted := EvictCount(beforeCount);
    CollectingStarts(table, touched);
    left, leftTouched, victims := EvictOldest(table, touched, {}, table, touched, evicted);
    while |left| >= HARD_CAP
      invariant Collecting(table, touched, victims, left, leftTouched)
      invariant |left| == beforeCount - evicted
      invariant evicted == EvictCount(beforeCount)
                || (beforeCount - EvictCount(beforeCount) >= HARD_CAP && |left| == SOFT_WATERMARK)
      decreases |left|
    {
      var extra := Max(1, |left| - SOFT_WATERMARK);
      left, leftTouched, victims := EvictOldest(table, touched, victims, left, leftTouched, extra);
      evicted := evicted + extra;
    }
  }

  /** The collector's turn at one table. */
  method CollectIfNeeded<K(!new, ==), V>(table: map<K, V>, touched: map<K, Time>)
    returns (left: map<K, V>, leftTouched: map<K, Time>, evicted: nat)
    ensures TableCollected(table, touched, left, leftTouched) && |left| == |table| - evicted
  {
    if |table| < SOFT_WATERMARK {
      return table, touched, 0;
    }
    assert table != map[];
    ghost var victims: set<K>;
    left, leftTouched, evicted, victims := CollectTable(table, touched);
  }

  function Size(t: Tables): nat {
    |t.incoming| + |t.outgoing| + |t.peers| + |t.maxSeq|
  }

  /** The collector's turn at every table. */
  method CollectAll(t: Tables) returns (u: Tables, evicted: nat)
    ensures Collected(t, u) && Size(t) == Size(u) + evicted
  {
    hide TableCollected;
    var incoming, incomingTouched, a := CollectIfNeeded(t.incoming, t.incomingTouched);
    var outgoing, outgoingTouched, b := CollectIfNeeded(t.outgoing, t.outgoingTouched);
    var peers, peersTouched, c := CollectIfNeeded(t.peers, t.peersTouched);
    var maxSeq, maxSeqTouched, d := CollectIfNeeded(t.maxSeq, t.maxSeqTouched);
    u := Tables(incoming, incomingTouched, outgoing, outgoingTouched, peers, peersTouched, maxSeq, maxSeqTouched,
                t.bodyDone, t.responseDone);
    evicted := a + b + c + d;
  }

  lemma CollectedMarks(t: Tables, u: Tables)
    requires Collected(t, u)
    ensures u.bodyDone == t.bodyDone && u.responseDone == t.responseDone
  {
  }

  // ---- The host ----------------------------------------------------------------------------------------

  const RECENT_RELEASED_CAP: nat := 64

  function Noted(ring: seq<MessageId>, rid: MessageId): seq<MessageId> {
    if rid in ring then ring
    else (if |ring| == RECENT_RELEASED_CAP then ring[1..] else ring) + [rid]
  }

  function NotedAll(ring: seq<MessageId>, rids: seq<MessageId>): seq<MessageId> {
    if rids == [] then ring else Noted(NotedAll(ring, rids[..|rids| - 1]), rids[|rids| - 1])
  }

  /** What is held is noted as it is: a second time it changes nothing. */
  lemma NotedOnce(ring: seq<MessageId>, rid: MessageId)
    requires RingOk(ring)
    ensures rid in Noted(ring, rid) && RingOk(Noted(ring, rid)) && Noted(Noted(ring, rid), rid) == Noted(ring, rid)
    ensures rid in ring ==> Noted(ring, rid) == ring
  {
    if rid !in ring {
      var kept := if |ring| == RECENT_RELEASED_CAP then ring[1..] else ring;
      assert Noted(ring, rid) == kept + [rid] && (kept + [rid])[|kept|] == rid;
    }
  }

  function LastOf(rids: seq<MessageId>, n: nat): seq<MessageId> {
    if |rids| <= n then rids else rids[|rids| - n..]
  }

  lemma NotedNew(ring: seq<MessageId>, rid: MessageId)
    requires rid !in ring && |ring| <= 64
    ensures Noted(ring, rid) == LastOf(ring + [rid], 64)
  {
    if |ring| == 64 {
      assert (ring + [rid])[1..] == ring[1..] + [rid];
    }
  }

  lemma LastOfSnoc(before: seq<MessageId>, rid: MessageId)
    ensures LastOf(LastOf(before, 64) + [rid], 64) == LastOf(before + [rid], 64)
  {
    if |before| > 64 {
      var n := |before|;
      assert (before[n - 64..] + [rid])[1..] == (before + [rid])[n - 63..];
    }
  }

  /** Of ids noted once each, the ring holds the last 64, in order. */
  lemma {:induction false} RingHoldsTheLast(rids: seq<MessageId>)
    requires forall i, j :: 0 <= i < j < |rids| ==> rids[i] != rids[j]
    ensures NotedAll([], rids) == if |rids| <= 64 then rids else rids[|rids| - 64..]
  {
    hide Noted;
    if rids != [] {
      var n := |rids| - 1;
      var before, rid := rids[..n], rids[n];
      assert rids == before + [rid];
      RingHoldsTheLast(before);
      assert NotedAll([], before) == LastOf(before, 64);
      NotedNew(LastOf(before, 64), rid);
      LastOfSnoc(before, rid);
    }
  }

  /** Each of them once. */
  ghost predicate Lists<K(!new)>(all: seq<K>, some: set<K>) {
    multiset(all) == multiset(some)
  }

  function RidsOf(keys: seq<RxidKey>): seq<MessageId> {
    seq(|keys|, i requires 0 <= i < |keys| => keys[i].rid)
  }

  predicate RingOk(ring: seq<MessageId>) {
    |ring| <= RECENT_RELEASED_CAP && forall i, j :: 0 <= i < j < |ring| ==> ring[i] != ring[j]
  }

  datatype Disposition = Routed(route: Route) | Straggler | NoRoute

  lemma RequestMove(t: Tables, key: RxidKey, idx: Cartridge, ok: bool, now: Time, m: Tables, u: Tables)
    requires Collected(Recorded(t, key, idx, now), m) && u == if ok then m else Forgotten(m, key)
    ensures Next(t, NewRequest(key, idx, ok, now), u) && (Sound(t) ==> Sound(u))
  {
    assert Next(t, NewRequest(key, idx, ok, now), u);
    hide Next, Sound;
    if Sound(t) {
      NextSound(t, NewRequest(key, idx, ok, now), u);
    }
  }

  /** A continuation that releases what was recorded under its id: not taken, or the last end of a body or a call. */
  predicate Releases(t: Tables, f: HostFrame, xid: MessageId, ok: bool, now: Time) {
    match Continued(t, f, xid, ok, now).route
    case None => false
    case Some(route) =>
      !ok || (IsTerminal(f.frame.kind) && (!route.viaIncoming || RxidKey(xid, f.frame.id) in t.responseDone))
  }

  lemma ReleasesByRoute(t: Tables, f: HostFrame, xid: MessageId, ok: bool, now: Time)
    ensures var key := RxidKey(xid, f.frame.id);
            Releases(t, f, xid, ok, now)
            <==> !(f.frame.kind == Credit && f.direction.None?) && RouteOf(t, f, key).Some?
                 && (!ok || (IsTerminal(f.frame.kind)
                             && (!RouteOf(t, f, key).value.viaIncoming || key in t.responseDone)))
  {
    hide RouteOf, Failed, EndedInbound, Touch;
  }

  class HostTables {
    var incomingRxids: map<RxidKey, Cartridge>
    var incomingRxidsTouched: map<RxidKey, Time>
    var outgoingRids: map<MessageId, Cartridge>
    var outgoingRidsTouched: map<MessageId, Time>
    var incomingToPeerRids: map<RxidKey, seq<MessageId>>
    var incomingToPeerRidsTouched: map<RxidKey, Time>
    var outgoingMaxSeq: map<FlowKey, nat>
    var outgoingMaxSeqTouched: map<FlowKey, Time>
    var incomingBodyDone: set<RxidKey>
    var incomingResponseDone: set<RxidKey>
    var recentReleasedRids: seq<MessageId>
    var gcEvictedTotal: nat

    ghost function State(): Tables
      reads this
    {
      Tables(incomingRxids, incomingRxidsTouched, outgoingRids, outgoingRidsTouched,
             incomingToPeerRids, incomingToPeerRidsTouched, outgoingMaxSeq, outgoingMaxSeqTouched,
             incomingBodyDone, incomingResponseDone)
    }

    ghost predicate Valid()
      reads this
    {
      Sound(State()) && RingOk(recentReleasedRids)
    }

    constructor ()
      ensures Valid() && State() == NoRoutes && recentReleasedRids == []
    {
      incomingRxids, incomingRxidsTouched, outgoingRids, outgoingRidsTouched := map[], map[], map[], map[];
      incomingToPeerRids, incomingToPeerRidsTouched := map[], map[];
      outgoingMaxSeq, outgoingMaxSeqTouched := map[], map[];
      incomingBodyDone, incomingResponseDone, recentReleasedRids, gcEvictedTotal := {}, {}, [], 0;
    }

    method NoteReleased(rid: MessageId)
      requires RingOk(recentReleasedRids)
      modifies this`recentReleasedRids
      ensures RingOk(recentReleasedRids) && recentReleasedRids == Noted(old(recentReleasedRids), rid)
    {
      if rid in recentReleasedRids {
        return;
      }
      if |recentReleasedRids| == RECENT_RELEASED_CAP {
        recentReleasedRids := recentReleasedRids[1..];
      }
      recentReleasedRids := recentReleasedRids + [rid];
    }

    method Collect()
      modifies this`incomingRxids, this`incomingRxidsTouched, this`outgoingRids, this`outgoingRidsTouched
      modifies this`incomingToPeerRids, this`incomingToPeerRidsTouched, this`outgoingMaxSeq, this`outgoingMaxSeqTouched
      modifies this`gcEvictedTotal
      ensures Collected(old(State()), State())
      ensures gcEvictedTotal == old(gcEvictedTotal) + Size(old(State())) - Size(State())
    {
      hide Collected, Size;
      var u, evicted := CollectAll(Tables(incomingRxids, incomingRxidsTouched, outgoingRids, outgoingRidsTouched,
                                          incomingToPeerRids, incomingToPeerRidsTouched,
                                          outgoingMaxSeq, outgoingMaxSeqTouched,
                                          incomingBodyDone, incomingResponseDone));
      incomingRxids, incomingRxidsTouched := u.incoming, u.incomingTouched;
      outgoingRids, outgoingRidsTouched := u.outgoing, u.outgoingTouched;
      incomingToPeerRids, incomingToPeerRidsTouched := u.peers, u.peersTouched;
      outgoingMaxSeq, outgoingMaxSeqTouched := u.maxSeq, u.maxSeqTouched;
      assert State() == u by {
        CollectedMarks(old(State()), u);
      }
      gcEvictedTotal := gcEvictedTotal + evicted;
    }

    /** A request for a chosen cartridge: recorded, and forgotten again if the cartridge does not take it. */
    method HandleRequest(key: RxidKey, idx: Cartridge, ok: bool, now: Time) returns (ghost m: Tables)
      requires Valid()
      modifies this
      ensures Valid() && Next(old(State()), NewRequest(key, idx, ok, now), State())
      ensures Collected(Recorded(old(State()), key, idx, now), m) && State() == if ok then m else Forgotten(m, key)
      ensures gcEvictedTotal == old(gcEvictedTotal) + Size(Recorded(old(State()), key, idx, now)) - Size(m)
      ensures recentReleasedRids == if ok then old(recentReleasedRids) else Noted(old(recentReleasedRids), key.rid)
    {
      hide Collected, Sound, RingOk, Size;
      ghost var before := State();
      incomingRxids, incomingRxidsTouched := incomingRxids[key := idx], incomingRxidsTouched[key := now];
      assert State() == Recorded(before, key, idx, now);
      Collect();
      m := State();
      if !ok {
        incomingRxids, incomingRxidsTouched := incomingRxids - {key}, incomingRxidsTouched - {key};
        NoteReleased(key.rid);
      }
      RequestMove(before, key, idx, ok, now, m, State());
    }

    /** Where a continuation goes, with the entry it uses kept fresh. */
    method Resolve(f: HostFrame, key: RxidKey, now: Time) returns (route: Option<Route>)
      modifies this`incomingRxidsTouched, this`outgoingRidsTouched
      requires key.rid == f.frame.id
      ensures route == RouteOf(old(State()), f, key)
      ensures State() == if route.None? then old(State()) else Touch(old(State()), key, route.value.viaIncoming, now)
      ensures State().responseDone == old(State()).responseDone
    {
      var preferIncoming := if f.frame.kind == Credit then f.direction == Some(Response) else key !in incomingBodyDone;
      if preferIncoming && key in incomingRxids {
        incomingRxidsTouched := incomingRxidsTouched[key := now];
        return Some(Route(incomingRxids[key], true));
      } else if key.rid in outgoingRids {
        outgoingRidsTouched := outgoingRidsTouched[key.rid := now];
        return Some(Route(outgoingRids[key.rid], false));
      } else if key in incomingRxids {
        incomingRxidsTouched := incomingRxidsTouched[key := now];
        return Some(Route(incomingRxids[key], true));
      }
      return None;
    }

    /** The number after the flow's last, whose record goes. */
    method TakeNextSeq(flow: FlowKey) returns (nextSeq: nat)
      modifies this`outgoingMaxSeq, this`outgoingMaxSeqTouched
      ensures State() == Silenced(old(State()), flow) && nextSeq == NextErr(old(State()), flow)
    {
      nextSeq := (if flow in outgoingMaxSeq then outgoingMaxSeq[flow] else 0) + 1;
      outgoingMaxSeq, outgoingMaxSeqTouched := outgoingMaxSeq - {flow}, outgoingMaxSeqTouched - {flow};
    }

    method FailRequest(key: RxidKey) returns (nextSeq: nat)
      requires RingOk(recentReleasedRids)
      modifies this`incomingRxids, this`incomingRxidsTouched, this`outgoingRids, this`outgoingRidsTouched
      modifies this`outgoingMaxSeq, this`outgoingMaxSeqTouched, this`incomingBodyDone, this`incomingResponseDone
      modifies this`recentReleasedRids
      ensures (State(), nextSeq) == Failed(old(State()), key)
      ensures RingOk(recentReleasedRids) && recentReleasedRids == Noted(old(recentReleasedRids), key.rid)
    {
      hide RingOk, Noted;
      nextSeq := TakeNextSeq(FlowKey(key.rid, Some(key.xid)));
      outgoingRids, outgoingRidsTouched := outgoingRids - {key.rid}, outgoingRidsTouched - {key.rid};
      incomingRxids, incomingRxidsTouched := incomingRxids - {key}, incomingRxidsTouched - {key};
      incomingBodyDone, incomingResponseDone := incomingBodyDone - {key}, incomingResponseDone - {key};
      NoteReleased(key.rid);
    }

    method EndInbound(key: RxidKey, routedViaIncoming: bool)
      requires RingOk(recentReleasedRids)
      modifies this`incomingRxids, this`incomingRxidsTouched, this`outgoingRids, this`outgoingRidsTouched
      modifies this`outgoingMaxSeq, this`outgoingMaxSeqTouched, this`incomingBodyDone, this`incomingResponseDone
      modifies this`recentReleasedRids
      ensures State() == EndedInbound(old(State()), key, routedViaIncoming)
      ensures RingOk(recentReleasedRids)
      ensures recentReleasedRids
           == if routedViaIncoming && key !in old(incomingResponseDone) then old(recentReleasedRids)
              else Noted(old(recentReleasedRids), key.rid)
    {
      hide RingOk, Noted;
      if routedViaIncoming {
        if key in incomingResponseDone {
          incomingResponseDone := incomingResponseDone - {key};
          incomingRxids, incomingRxidsTouched := incomingRxids - {key}, incomingRxidsTouched - {key};
          NoteReleased(key.rid);
        } else {
          incomingBodyDone := incomingBodyDone + {key};
        }
      } else {
        outgoingRids, outgoingRidsTouched := outgoingRids - {key.rid}, outgoingRidsTouched - {key.rid};
        NoteReleased(key.rid);
      }
    }

    method HandleContinuation(f: HostFrame, xid: MessageId, ok: bool, now: Time)
      returns (disposition: Disposition, err: Option<nat>)
      requires Valid() && IsContinuation(f)
      modifies this`incomingRxids, this`incomingRxidsTouched, this`outgoingRids, this`outgoingRidsTouched
      modifies this`outgoingMaxSeq, this`outgoingMaxSeqTouched, this`incomingBodyDone, this`incomingResponseDone
      modifies this`recentReleasedRids
      ensures Valid()
      ensures recentReleasedRids
           == if Releases(old(State()), f, xid, ok, now) then Noted(old(recentReleasedRids), f.frame.id)
              else old(recentReleasedRids)
      ensures var handled := Continued(old(State()), f, xid, ok, now);
              State() == handled.tables && err == handled.err
              && (handled.route.Some? ==> disposition == Routed(handled.route.value))
              && (handled.route.None? ==>
                    disposition
                    == if f.frame.id in old(recentReleasedRids) && !(f.frame.kind == Credit && f.direction.None?)
                       then Straggler else NoRoute)
    {
      ContinuedSound(State(), f, xid, ok, now);
      ReleasesByRoute(State(), f, xid, ok, now);
      hide Sound, RingOk, RouteOf, Failed, EndedInbound, Noted, Releases, Touch;
      var key := RxidKey(xid, f.frame.id);
      err := None;
      if f.frame.kind == Credit && f.direction.None? {
        return NoRoute, None;
      }
      var resolved := Resolve(f, key, now);
      if resolved.None? {
        return if key.rid in recentReleasedRids then Straggler else NoRoute, None;
      }
      disposition := Routed(resolved.value);
      err := Settle(key, IsTerminal(f.frame.kind), resolved.value.viaIncoming, ok);
    }

    /** What follows the write: a failed one fails the request, and an end ends its side. */
    method Settle(key: RxidKey, ends: bool, routedViaIncoming: bool, ok: bool) returns (err: Option<nat>)
      requires RingOk(recentReleasedRids)
      modifies this`incomingRxids, this`incomingRxidsTouched, this`outgoingRids, this`outgoingRidsTouched
      modifies this`outgoingMaxSeq, this`outgoingMaxSeqTouched, this`incomingBodyDone, this`incomingResponseDone
      modifies this`recentReleasedRids
      ensures State() == if !ok then Failed(old(State()), key).0
                         else if ends then EndedInbound(old(State()), key, routedViaIncoming) else old(State())
      ensures err == if ok then None else Some(Failed(old(State()), key).1)
      ensures RingOk(recentReleasedRids)
      ensures recentReleasedRids
           == if !ok || (ends && (!routedViaIncoming || key in old(incomingResponseDone)))
              then Noted(old(recentReleasedRids), key.rid) else old(recentReleasedRids)
    {
      hide RingOk, Failed, EndedInbound, Noted;
      err := None;
      if !ok {
        var nextSeq := FailRequest(key);
        err := Some(nextSeq);
      } else if ends {
        EndInbound(key, routedViaIncoming);
      }
    }

    /** A tap-off: the cartridge it is forwarded to, if the host serves the request. */
    method HandleCloseStream(key: RxidKey, now: Time) returns (cartridge: Option<Cartridge>)
      requires Valid()
      modifies this`incomingRxidsTouched
      ensures Valid() && Next(old(State()), CloseStreamIn(key, now), State())
      ensures cartridge == if key in incomingRxids then Some(incomingRxids[key]) else None
    {
      TappedSound(State(), key, now);
      hide Sound;
      if key !in incomingRxids {
        return None;
      }
      incomingRxidsTouched := incomingRxidsTouched[key := now];
      return Some(incomingRxids[key]);
    }

    /** A cancel: who it goes to, and the peer calls it is passed on to unless it kills. */
    method HandleCancel(key: RxidKey, forceKill: bool, now: Time, later: Time)
      returns (cartridge: Option<Cartridge>, cascade: seq<MessageId>)
      requires Valid()
      modifies this`incomingRxidsTouched, this`incomingToPeerRidsTouched
      ensures Valid() && Next(old(State()), CancelIn(key, forceKill, now, later), State())
      ensures cartridge == Cancelled(old(State()), key, forceKill, now, later).route
      ensures cascade == Cancelled(old(State()), key, forceKill, now, later).cascade
    {
      hide Sound, RingOk;
      CancelledSound(State(), key, forceKill, now, later);
      if key !in incomingRxids {
        return None, [];
      }
      incomingRxidsTouched := incomingRxidsTouched[key := now];
      cartridge, cascade := Some(incomingRxids[key]), [];
      if !forceKill && key in incomingToPeerRids {
        incomingToPeerRidsTouched := incomingToPeerRidsTouched[key := later];
        cascade := incomingToPeerRids[key];
      }
    }

    /** A peer call, under the parent it names if the host holds an entry for one. */
    method HandlePeerCall(idx: Cartridge, f: HostFrame, now: Time) returns (ghost parent: Option<RxidKey>)
      requires Valid() && f.frame.kind == Req
      modifies this
      ensures Valid() && Next(old(State()), PeerCall(idx, f, parent, now), State())
      ensures recentReleasedRids == old(recentReleasedRids)
      ensures gcEvictedTotal == old(gcEvictedTotal) + Size(Invoked(old(State()), idx, f, parent, now)) - Size(State())
    {
      hide Collected, Invoked, Sound, RingOk, Size;
      ghost var before := State();
      parent := RecordCall(idx, f, now);
      Collect();
      assert Next(before, PeerCall(idx, f, parent, now), State());
      NextSound(before, PeerCall(idx, f, parent, now), State());
    }

    method RecordCall(idx: Cartridge, f: HostFrame, now: Time) returns (ghost parent: Option<RxidKey>)
      modifies this`outgoingRids, this`outgoingRidsTouched, this`outgoingMaxSeq, this`outgoingMaxSeqTouched
      modifies this`incomingToPeerRids, this`incomingToPeerRidsTouched
      ensures ParentOf(old(State()), f, parent) && State() == Invoked(old(State()), idx, f, parent, now)
    {
      var rid, flow := f.frame.id, f.frame.Key();
      outgoingRids, outgoingRidsTouched := outgoingRids[rid := idx], outgoingRidsTouched[rid := now];
      outgoingMaxSeq, outgoingMaxSeqTouched := outgoingMaxSeq[flow := f.frame.num], outgoingMaxSeqTouched[flow := now];
      parent := None;
      if f.parent.Some? {
        if key :| key in incomingRxids && key.rid == f.parent.value {
          var children := if key in incomingToPeerRids then incomingToPeerRids[key] else [];
          incomingToPeerRids := incomingToPeerRids[key := children + [rid]];
          incomingToPeerRidsTouched := incomingToPeerRidsTouched[key := now];
          parent := Some(key);
        }
      }
    }

    /** Any other flow frame on its way to the relay. */
    method HandleFlowFrame(f: Frame, now: Time)
      requires Valid() && IsFlow(f.kind) && f.kind != Req
      modifies this
      ensures Valid() && Next(old(State()), FlowOut(f, now), State())
      ensures recentReleasedRids
           == if IsTerminal(f.kind) && f.xid.Some? && RxidKey(f.xid.value, f.id) in old(incomingBodyDone)
              then Noted(old(recentReleasedRids), f.id) else old(recentReleasedRids)
      ensures gcEvictedTotal == old(gcEvictedTotal)
                                + if IsTerminal(f.kind) then 0
                                  else Size(NotedSeq(old(State()), f, now)) - Size(State())
    {
      hide EndedOutbound, Collected, Sound, RingOk, Size, Noted;
      ghost var before := State();
      if IsTerminal(f.kind) {
        EndOutbound(f);
      } else {
        var flow := f.Key();
        outgoingMaxSeq, outgoingMaxSeqTouched := outgoingMaxSeq[flow := f.num], outgoingMaxSeqTouched[flow := now];
        assert State() == NotedSeq(before, f, now);
        Collect();
      }
      hide NotedSeq;
      assert Next(before, FlowOut(f, now), State());
      NextSound(before, FlowOut(f, now), State());
    }

    method EndOutbound(f: Frame)
      requires RingOk(recentReleasedRids)
      modifies this`incomingRxids, this`incomingRxidsTouched, this`outgoingRids, this`outgoingRidsTouched
      modifies this`outgoingMaxSeq, this`outgoingMaxSeqTouched, this`incomingBodyDone, this`incomingResponseDone
      modifies this`recentReleasedRids
      ensures State() == EndedOutbound(old(State()), f) && RingOk(recentReleasedRids)
      ensures recentReleasedRids
           == if f.xid.Some? && RxidKey(f.xid.value, f.id) in old(incomingBodyDone)
              then Noted(old(recentReleasedRids), f.id) else old(recentReleasedRids)
    {
      hide RingOk, Noted;
      var _ := TakeNextSeq(f.Key());
      if f.xid.Some? {
        var key := RxidKey(f.xid.value, f.id);
        if key in incomingBodyDone {
          incomingBodyDone := incomingBodyDone - {key};
          incomingRxids, incomingRxidsTouched := incomingRxids - {key}, incomingRxidsTouched - {key};
          NoteReleased(f.id);
        } else if key in incomingRxids {
          incomingResponseDone := incomingResponseDone + {key};
        }
      }
    }

    /**
      A cartridge has died: nothing in the tables is left of it, each entry it had
      is owed one ERR, and every request of it is noted as released.
    */
    method HandleDeath(idx: Cartridge)
      returns (errs: map<FlowKey, nat>, ghost calls: seq<MessageId>, ghost requests: seq<RxidKey>)
      requires Valid()
      modifies this`incomingRxids, this`incomingRxidsTouched, this`outgoingRids, this`outgoingRidsTouched
      modifies this`outgoingMaxSeq, this`outgoingMaxSeqTouched, this`incomingBodyDone, this`incomingResponseDone
      modifies this`incomingToPeerRids, this`incomingToPeerRidsTouched, this`recentReleasedRids
      ensures Valid() && State() == Swept(old(State()), idx) && errs == SweepErrs(old(State()), idx)
      ensures Lists(calls, OwnOutgoing(old(State()), idx)) && Lists(requests, OwnIncoming(old(State()), idx))
      ensures recentReleasedRids == NotedAll(NotedAll(old(recentReleasedRids), calls), RidsOf(requests))
    {
      hide Sound, RingOk, Swept, SweepErrs, NotedAll;
      SweptSound(State(), idx);
      var u, failedOutgoing, failedIncoming;
      u, errs, failedOutgoing, failedIncoming :=
        Sweep(Tables(incomingRxids, incomingRxidsTouched, outgoingRids, outgoingRidsTouched,
                     incomingToPeerRids, incomingToPeerRidsTouched, outgoingMaxSeq, outgoingMaxSeqTouched,
                     incomingBodyDone, incomingResponseDone), idx);
      incomingRxids, incomingRxidsTouched := u.incoming, u.incomingTouched;
      outgoingRids, outgoingRidsTouched := u.outgoing, u.outgoingTouched;
      incomingToPeerRids, incomingToPeerRidsTouched := u.peers, u.peersTouched;
      outgoingMaxSeq, outgoingMaxSeqTouched := u.maxSeq, u.maxSeqTouched;
      incomingBodyDone, incomingResponseDone := u.bodyDone, u.responseDone;
      calls := NoteCalls(failedOutgoing);
      requests := NoteRequests(failedIncoming);
    }

    method NoteCalls(rids: set<MessageId>) returns (ghost noted: seq<MessageId>)
      requires RingOk(recentReleasedRids)
      modifies this`recentReleasedRids
      ensures RingOk(recentReleasedRids) && Lists(noted, rids)
      ensures recentReleasedRids == NotedAll(old(recentReleasedRids), noted)
    {
      var todo := rids;
      noted := [];
      while todo != {}
        invariant RingOk(recentReleasedRids) && todo <= rids && multiset(noted) == multiset(rids - todo)
        invariant recentReleasedRids == NotedAll(old(recentReleasedRids), noted)
        decreases todo
      {
        var rid :| rid in todo;
        NoteReleased(rid);
        assert (noted + [rid])[..|noted|] == noted;
        noted := noted + [rid];
        assert rids - (todo - {rid}) == (rids - todo) + {rid};
        todo := todo - {rid};
      }
      assert rids - todo == rids;
    }

    method NoteRequests(keys: set<RxidKey>) returns (ghost noted: seq<RxidKey>)
      requires RingOk(recentReleasedRids)
      modifies this`recentReleasedRids
      ensures RingOk(recentReleasedRids) && Lists(noted, keys)
      ensures recentReleasedRids == NotedAll(old(recentReleasedRids), RidsOf(noted))
    {
      var todo := keys;
      noted := [];
      while todo != {}
        invariant RingOk(recentReleasedRids) && todo <= keys && multiset(noted) == multiset(keys - todo)
        invariant recentReleasedRids == NotedAll(old(recentReleasedRids), RidsOf(noted))
        decreases todo
      {
        var key :| key in todo;
        NoteReleased(key.rid);
        assert RidsOf(noted + [key]) == RidsOf(noted) + [key.rid];
        assert (RidsOf(noted) + [key.rid])[..|noted|] == RidsOf(noted);
        noted := noted + [key];
        assert keys - (todo - {key}) == (keys - todo) + {key};
        todo := todo - {key};
      }
      assert keys - todo == keys;
    }
  }

  /** What a death takes out of the tables, the ERR numbers it leaves owing, and the entries it releases. */
  method Sweep(t: Tables, idx: Cartridge)
    returns (u: Tables, errs: map<FlowKey, nat>, failedOutgoing: set<MessageId>, failedIncoming: set<RxidKey>)
    ensures u == Swept(t, idx) && errs == SweepErrs(t, idx)
    ensures failedOutgoing == OwnOutgoing(t, idx) && failedIncoming == OwnIncoming(t, idx)
  {
    failedOutgoing := set r | r in t.outgoing && t.outgoing[r] == idx;
    failedIncoming := set k | k in t.incoming && t.incoming[k] == idx;
    assert failedOutgoing == OwnOutgoing(t, idx) && failedIncoming == OwnIncoming(t, idx);
    var flows := (set r | r in failedOutgoing :: FlowKey(r, None))
                 + (set k | k in failedIncoming :: FlowKey(k.rid, Some(k.xid)));
    assert flows == OwnFlows(t, idx);
    hide OwnOutgoing, OwnIncoming, OwnFlows;
    var maxSeq, maxSeqTouched;
    maxSeq, maxSeqTouched, errs := FailFlows(flows, t.maxSeq, t.maxSeqTouched);
    u := Tables(t.incoming - failedIncoming, t.incomingTouched - failedIncoming,
                t.outgoing - failedOutgoing, t.outgoingTouched - failedOutgoing,
                t.peers - failedIncoming, t.peersTouched - failedIncoming, maxSeq, maxSeqTouched,
                t.bodyDone - failedIncoming, t.responseDone - failedIncoming);
  }

  /** One number per flow, one past the last recorded; the records go. */
  method FailFlows(flows: set<FlowKey>, maxSeq: map<FlowKey, nat>, touched: map<FlowKey, Time>)
    returns (left: map<FlowKey, nat>, leftTouched: map<FlowKey, Time>, errs: map<FlowKey, nat>)
    ensures left == maxSeq - flows && leftTouched == touched - flows
    ensures errs == map flow | flow in flows :: (if flow in maxSeq then maxSeq[flow] else 0) + 1
  {
    left, leftTouched, errs := maxSeq, touched, map[];
    var todo := flows;
    while todo != {}
      invariant todo <= flows && left == maxSeq - (flows - todo) && leftTouched == touched - (flows - todo)
      invariant errs == map flow | flow in flows - todo :: (if flow in maxSeq then maxSeq[flow] else 0) + 1
      decreases todo
    {
      var flow :| flow in todo;
      errs := errs[flow := (if flow in left then left[flow] else 0) + 1];
      left, leftTouched := left - {flow}, leftTouched - {flow};
      todo := todo - {flow};
    }
    assert flows - todo == flows;
  }
}
