/**
  The host's routing tables and what each handled frame does to them.

  Every table has a touched-at map beside it, which only the collector reads.  The
  collector's choice among entries of equal age is left open, so a collection is
  a relation between the tables before and after.

  `Sound` is what every move keeps: the keys of each table and of the map beside
  it are the same, the tables are small, and no request is marked twice.
*/
module RoutingTables {
  import opened Frames
  import opened Wrappers

  const HARD_CAP: nat := 8192
  const SOFT_WATERMARK: nat := 6553

  type Cartridge = nat
  type Time = nat

  datatype RxidKey = RxidKey(xid: MessageId, rid: MessageId)
  datatype Direction = Response | Request
  datatype HostFrame = HostFrame(frame: Frame, direction: Option<Direction>, parent: Option<MessageId>)

  datatype Tables = Tables(
    incoming: map<RxidKey, Cartridge>, incomingTouched: map<RxidKey, Time>,
    outgoing: map<MessageId, Cartridge>, outgoingTouched: map<MessageId, Time>,
    peers: map<RxidKey, seq<MessageId>>, peersTouched: map<RxidKey, Time>,
    maxSeq: map<FlowKey, nat>, maxSeqTouched: map<FlowKey, Time>,
    bodyDone: set<RxidKey>, responseDone: set<RxidKey>)

  const NoRoutes := Tables(map[], map[], map[], map[], map[], map[], map[], map[], {}, {})

  // ---- Collecting -------------------------------------------------------------------------------

  /** A quarter of the table, and at least one entry. */
  function EvictCount(n: nat): nat {
    Max(1, n / 4)
  }

  /** All one turn evicts: after a pass that leaves the table at the cap or above, down to the watermark. */
  function Evictions(n: nat): nat {
    if n - EvictCount(n) >= HARD_CAP then n - SOFT_WATERMARK else EvictCount(n)
  }

  function Age<K>(touched: map<K, Time>, k: K): Time {
    if k in touched then touched[k] else 0
  }

  /** The victims are in the table, and nobody kept is older than any of them. */
  ghost predicate OldestFirst<K(!new)>(all: set<K>, victims: set<K>, touched: map<K, Time>) {
    victims <= all
    && forall v, k :: v in victims && k in all && k !in victims ==> Age(touched, v) <= Age(touched, k)
  }

  /** One table after its turn at the collector. */
  ghost predicate TableCollected<K(!new), V>(table: map<K, V>, touched: map<K, Time>,
                                             after: map<K, V>, afterTouched: map<K, Time>) {
    if |table| < SOFT_WATERMARK then after == table && afterTouched == touched
    else
      exists victims: set<K> ::
        OldestFirst(table.Keys, victims, touched) && |victims| == Evictions(|table|)
        && after == table - victims && afterTouched == touched - victims
  }

  ghost predicate Collected(t: Tables, u: Tables) {
    TableCollected(t.incoming, t.incomingTouched, u.incoming, u.incomingTouched)
    && TableCollected(t.outgoing, t.outgoingTouched, u.outgoing, u.outgoingTouched)
    && TableCollected(t.peers, t.peersTouched, u.peers, u.peersTouched)
    && TableCollected(t.maxSeq, t.maxSeqTouched, u.maxSeq, u.maxSeqTouched)
    && u.bodyDone == t.bodyDone && u.responseDone == t.responseDone
  }

  // ---- From the relay ------------------------------------------------------------------------------

  /** A request is recorded under its cartridge. */
  function Recorded(t: Tables, key: RxidKey, idx: Cartridge, now: Time): Tables {
    t.(incoming := t.incoming[key := idx], incomingTouched := t.incomingTouched[key := now])
  }

  function Forgotten(t: Tables, key: RxidKey): Tables {
    t.(incoming := t.incoming - {key}, incomingTouched := t.incomingTouched - {key})
  }

  datatype Route = Route(idx: Cartridge, viaIncoming: bool)

  function PrefersIncoming(t: Tables, f: HostFrame, key: RxidKey): bool {
    if f.frame.kind == Credit then f.direction == Some(Response) else key !in t.bodyDone
  }

  /** Which cartridge a continuation goes to. */
  function RouteOf(t: Tables, f: HostFrame, key: RxidKey): Option<Route> {
    if PrefersIncoming(t, f, key) && key in t.incoming then Some(Route(t.incoming[key], true))
    else if key.rid in t.outgoing then Some(Route(t.outgoing[key.rid], false))
    else if key in t.incoming then Some(Route(t.incoming[key], true))
    else None
  }

  function Touch(t: Tables, key: RxidKey, viaIncoming: bool, now: Time): Tables {
    if viaIncoming then t.(incomingTouched := t.incomingTouched[key := now])
    else t.(outgoingTouched := t.outgoingTouched[key.rid := now])
  }

  /** The cartridge is gone: everything of the request goes, and an ERR is owed under this number. */
  function Failed(t: Tables, key: RxidKey): (Tables, nat) {
    var flow := FlowKey(key.rid, Some(key.xid));
    (t.(maxSeq := t.maxSeq - {flow}, maxSeqTouched := t.maxSeqTouched - {flow},
        outgoing := t.outgoing - {key.rid}, outgoingTouched := t.outgoingTouched - {key.rid},
        incoming := t.incoming - {key}, incomingTouched := t.incomingTouched - {key},
        bodyDone := t.bodyDone - {key}, responseDone := t.responseDone - {key}),
     NextErr(t, flow))
  }

  function NextErr(t: Tables, flow: FlowKey): nat {
    (if flow in t.maxSeq then t.maxSeq[flow] else 0) + 1
  }

  /** The body or a peer response has ended. */
  function EndedInbound(t: Tables, key: RxidKey, viaIncoming: bool): (u: Tables)
    ensures u.maxSeq == t.maxSeq
  {
    if !viaIncoming then
      t.(outgoing := t.outgoing - {key.rid}, outgoingTouched := t.outgoingTouched - {key.rid})
    else if key in t.responseDone then Forgotten(t.(responseDone := t.responseDone - {key}), key)
    else t.(bodyDone := t.bodyDone + {key})
  }

  datatype Handled = Handled(tables: Tables, route: Option<Route>, err: Option<nat>)

  predicate IsContinuation(f: HostFrame) {
    f.frame.kind in {StreamStart, Chunk, StreamEnd, End, FrameType.Err, Credit}
  }

  /** A continuation from the relay; `ok` is whether the cartridge took it. */
  function Continued(t: Tables, f: HostFrame, xid: MessageId, ok: bool, now: Time): Handled {
    var key := RxidKey(xid, f.frame.id);
    if f.frame.kind == Credit && f.direction.None? then Handled(t, None, None)
    else
      match RouteOf(t, f, key)
      case None => Handled(t, None, None)
      case Some(route) =>
        var touched := Touch(t, key, route.viaIncoming, now);
        if !ok then Handled(Failed(touched, key).0, Some(route), Some(Failed(touched, key).1))
        else if IsTerminal(f.frame.kind) then Handled(EndedInbound(touched, key, route.viaIncoming), Some(route), None)
        else Handled(touched, Some(route), None)
  }

  function Logged(t: Tables, rid: MessageId, now: Time): (u: Tables)
    ensures SameTables(t, u)
  {
    if rid in t.outgoing then t.(outgoingTouched := t.outgoingTouched[rid := now]) else t
  }

  /** The tables are the same, whatever became of their ages. */
  predicate SameTables(t: Tables, u: Tables) {
    u.incoming == t.incoming && u.outgoing == t.outgoing && u.peers == t.peers && u.maxSeq == t.maxSeq
    && u.bodyDone == t.bodyDone && u.responseDone == t.responseDone
  }

  /** The switch taps a request's feed off, which only keeps the entry fresh. */
  function Tapped(t: Tables, key: RxidKey, now: Time): (u: Tables)
    ensures SameTables(t, u)
  {
    if key in t.incoming then Touch(t, key, true, now) else t
  }

  // `cascade` is the calls the cancel is passed on to.
  datatype Cancelling = Cancelling(tables: Tables, route: Option<Cartridge>, cascade: seq<MessageId>)

  /** A cancel; one that does not kill is passed on to the calls the request made. */
  function Cancelled(t: Tables, key: RxidKey, forceKill: bool, now: Time, later: Time): (c: Cancelling)
    ensures SameTables(t, c.tables)
  {
    if key !in t.incoming then Cancelling(t, None, [])
    else
      var touched := Touch(t, key, true, now);
      if forceKill || key !in t.peers then Cancelling(touched, Some(t.incoming[key]), [])
      else
        Cancelling(touched.(peersTouched := t.peersTouched[key := later]), Some(t.incoming[key]), t.peers[key])
  }

  // ---- From a cartridge ----------------------------------------------------------------------------

  function NotedSeq(t: Tables, f: Frame, now: Time): Tables {
    t.(maxSeq := t.maxSeq[f.Key() := f.num], maxSeqTouched := t.maxSeqTouched[f.Key() := now])
  }

  function Called(t: Tables, rid: MessageId, idx: Cartridge, now: Time): Tables {
    t.(outgoing := t.outgoing[rid := idx], outgoingTouched := t.outgoingTouched[rid := now])
  }

  function Parented(t: Tables, key: RxidKey, rid: MessageId, now: Time): Tables {
    var children := if key in t.peers then t.peers[key] else [];
    t.(peers := t.peers[key := children + [rid]], peersTouched := t.peersTouched[key := now])
  }

  /** A peer call: recorded under its caller, and under the parent's entry when there is one. */
  function Invoked(t: Tables, idx: Cartridge, f: HostFrame, parent: Option<RxidKey>, now: Time): Tables {
    var called := NotedSeq(Called(t, f.frame.id, idx, now), f.frame, now);
    match parent
    case None => called
    case Some(key) => Parented(called, key, f.frame.id, now)
  }

  /** A parent the call names, among the requests the host holds an entry for. */
  ghost predicate ParentOf(t: Tables, f: HostFrame, parent: Option<RxidKey>) {
    match parent
    case Some(key) => key in t.incoming && f.parent == Some(key.rid)
    case None => f.parent.None? || forall key :: key in t.incoming ==> key.rid != f.parent.value
  }

  function Silenced(t: Tables, flow: FlowKey): Tables {
    t.(maxSeq := t.maxSeq - {flow}, maxSeqTouched := t.maxSeqTouched - {flow})
  }

  /** The handler's response has ended: with the body over too the entry goes, otherwise it is marked. */
  function ResponseEnded(t: Tables, key: RxidKey): (u: Tables)
    ensures u.maxSeq == t.maxSeq
  {
    if key in t.bodyDone then Forgotten(t.(bodyDone := t.bodyDone - {key}), key)
    else if key in t.incoming then t.(responseDone := t.responseDone + {key})
    else t
  }

  function EndedOutbound(t: Tables, f: Frame): Tables {
    var quiet := Silenced(t, f.Key());
    if f.xid.Some? then ResponseEnded(quiet, RxidKey(f.xid.value, f.id)) else quiet
  }

  // ---- A death --------------------------------------------------------------------------------------

  function OwnOutgoing(t: Tables, idx: Cartridge): set<MessageId> {
    set r | r in t.outgoing && t.outgoing[r] == idx
  }

  function OwnIncoming(t: Tables, idx: Cartridge): set<RxidKey> {
    set k | k in t.incoming && t.incoming[k] == idx
  }

  /** The flows of a dead cartridge's entries. */
  function OwnFlows(t: Tables, idx: Cartridge): set<FlowKey> {
    (set r | r in OwnOutgoing(t, idx) :: FlowKey(r, None))
    + (set k | k in OwnIncoming(t, idx) :: FlowKey(k.rid, Some(k.xid)))
  }

  function Swept(t: Tables, idx: Cartridge): Tables {
    Tables(t.incoming - OwnIncoming(t, idx), t.incomingTouched - OwnIncoming(t, idx),
           t.outgoing - OwnOutgoing(t, idx), t.outgoingTouched - OwnOutgoing(t, idx),
           t.peers - OwnIncoming(t, idx), t.peersTouched - OwnIncoming(t, idx),
           t.maxSeq - OwnFlows(t, idx), t.maxSeqTouched - OwnFlows(t, idx),
           t.bodyDone - OwnIncoming(t, idx), t.responseDone - OwnIncoming(t, idx))
  }

  /** One ERR per swept entry, by flow, each numbered one past the last number recorded. */
  function SweepErrs(t: Tables, idx: Cartridge): map<FlowKey, nat> {
    map flow | flow in OwnFlows(t, idx) :: NextErr(t, flow)
  }

  // ---- What every handler keeps ----------------------------------------------------------------------

  /** Each table has the same keys as its touched-at map. */
  predicate Synced(t: Tables) {
    t.incomingTouched.Keys == t.incoming.Keys && t.outgoingTouched.Keys == t.outgoing.Keys
    && t.peersTouched.Keys == t.peers.Keys && t.maxSeqTouched.Keys == t.maxSeq.Keys
  }

  predicate Below(t: Tables, n: nat) {
    |t.incoming| < n && |t.outgoing| < n && |t.peers| < n && |t.maxSeq| < n
  }

  predicate Sound(t: Tables) {
    Synced(t) && Below(t, SOFT_WATERMARK) && t.bodyDone !! t.responseDone
  }

  lemma {:induction false} SomeOldest<K>(keys: set<K>, touched: map<K, Time>) returns (k: K)
    requires keys != {}
    ensures k in keys && forall j :: j in keys ==> Age(touched, k) <= Age(touched, j)
    decreases |keys|
  {
    k :| k in keys;
    var rest := keys - {k};
    if rest != {} {
      var best := SomeOldest(rest, touched);
      if Age(touched, best) < Age(touched, k) {
        k := best;
      }
    }
  }

  /** A collection brings a table that grew by one back below the watermark, without its last resort. */
  lemma CollectedBelow<K(!new), V>(table: map<K, V>, touched: map<K, Time>,
                                   after: map<K, V>, afterTouched: map<K, Time>)
    requires touched.Keys == table.Keys && |table| <= SOFT_WATERMARK
    requires TableCollected(table, touched, after, afterTouched)
    ensures afterTouched.Keys == after.Keys && |after| < SOFT_WATERMARK && after.Keys <= table.Keys
    ensures |table| == SOFT_WATERMARK ==> |after| == SOFT_WATERMARK - 1638
  {
    if |table| >= SOFT_WATERMARK {
      var victims :| OldestFirst(table.Keys, victims, touched) && |victims| == Evictions(|table|)
                     && after == table - victims && afterTouched == touched - victims;
      assert after.Keys == table.Keys - victims;
      assert |after.Keys| == |table.Keys| - |victims|;
    }
  }

  lemma CollectedSound(t: Tables, u: Tables)
    requires Synced(t) && Below(t, SOFT_WATERMARK + 1) && t.bodyDone !! t.responseDone && Collected(t, u)
    ensures Sound(u)
  {
    CollectedBelow(t.incoming, t.incomingTouched, u.incoming, u.incomingTouched);
    CollectedBelow(t.outgoing, t.outgoingTouched, u.outgoing, u.outgoingTouched);
    CollectedBelow(t.peers, t.peersTouched, u.peers, u.peersTouched);
    CollectedBelow(t.maxSeq, t.maxSeqTouched, u.maxSeq, u.maxSeqTouched);
  }

  lemma RecordedGrows(t: Tables, key: RxidKey, idx: Cartridge, now: Time)
    requires Sound(t)
    ensures var u := Recorded(t, key, idx, now);
            Synced(u) && Below(u, SOFT_WATERMARK + 1) && u.bodyDone !! u.responseDone
  {
  }

  lemma InvokedGrows(t: Tables, idx: Cartridge, f: HostFrame, parent: Option<RxidKey>, now: Time)
    requires Sound(t)
    ensures var u := Invoked(t, idx, f, parent, now);
            Synced(u) && Below(u, SOFT_WATERMARK + 1) && u.bodyDone !! u.responseDone
  {
    var called := NotedSeq(Called(t, f.frame.id, idx, now), f.frame, now);
    assert Synced(called);
  }

  lemma NotedGrows(t: Tables, f: Frame, now: Time)
    requires Sound(t)
    ensures var u := NotedSeq(t, f, now);
            Synced(u) && Below(u, SOFT_WATERMARK + 1) && u.bodyDone !! u.responseDone
  {
  }

  lemma ForgottenSound(t: Tables, key: RxidKey)
    requires Sound(t)
    ensures Sound(Forgotten(t, key))
  {
  }

  lemma TouchSound(t: Tables, key: RxidKey, viaIncoming: bool, now: Time)
    requires Sound(t) && if viaIncoming then key in t.incoming else key.rid in t.outgoing
    ensures Sound(Touch(t, key, viaIncoming, now))
  {
    assert key in t.incoming ==> t.incoming.Keys + {key} == t.incoming.Keys;
    assert key.rid in t.outgoing ==> t.outgoing.Keys + {key.rid} == t.outgoing.Keys;
  }

  lemma TappedSound(t: Tables, key: RxidKey, now: Time)
    requires Sound(t)
    ensures Sound(Tapped(t, key, now))
  {
    hide Sound;
    if key in t.incoming {
      TouchSound(t, key, true, now);
    }
  }

  lemma CancelledSound(t: Tables, key: RxidKey, forceKill: bool, now: Time, later: Time)
    requires Sound(t)
    ensures Sound(Cancelled(t, key, forceKill, now, later).tables)
  {
    TappedSound(t, key, now);
    assert key in t.peers ==> t.peers.Keys + {key} == t.peers.Keys;
    hide Touch;
  }

  lemma FailedSound(t: Tables, key: RxidKey)
    requires Sound(t)
    ensures Sound(Failed(t, key).0)
  {
  }

  lemma EndedInboundSound(t: Tables, key: RxidKey, viaIncoming: bool)
    requires Sound(t)
    ensures Sound(EndedInbound(t, key, viaIncoming))
  {
    if viaIncoming && key in t.responseDone {
      ForgottenSound(t.(responseDone := t.responseDone - {key}), key);
    }
  }

  lemma ContinuedSound(t: Tables, f: HostFrame, xid: MessageId, ok: bool, now: Time)
    requires Sound(t)
    ensures Sound(Continued(t, f, xid, ok, now).tables)
  {
    hide Sound, Failed, EndedInbound;
    var key := RxidKey(xid, f.frame.id);
    if RouteOf(t, f, key).Some? {
      var route := RouteOf(t, f, key).value;
      TouchSound(t, key, route.viaIncoming, now);
      var touched := Touch(t, key, route.viaIncoming, now);
      FailedSound(touched, key);
      EndedInboundSound(touched, key, route.viaIncoming);
    }
  }

  lemma ResponseEndedSound(t: Tables, key: RxidKey)
    requires Sound(t)
    ensures Sound(ResponseEnded(t, key))
  {
    if key in t.bodyDone {
      ForgottenSound(t.(bodyDone := t.bodyDone - {key}), key);
    }
  }

  lemma EndedOutboundSound(t: Tables, f: Frame)
    requires Sound(t)
    ensures Sound(EndedOutbound(t, f))
  {
    if f.xid.Some? {
      ResponseEndedSound(Silenced(t, f.Key()), RxidKey(f.xid.value, f.id));
    }
  }

  lemma SweptSound(t: Tables, idx: Cartridge)
    requires Sound(t)
    ensures Sound(Swept(t, idx))
  {
  }
}
