/**
  When each entry of the routing tables was last used, over whole runs of the host:
  the ages the collector goes by.
*/
module RoutingAges {
  import opened Frames
  import opened RoutingCalls
  import opened RoutingRuns
  import opened RoutingTables
  import opened Wrappers

  // An entry of one of the four tables.
  datatype Entry =
    | Incoming(key: RxidKey)
    | Outgoing(rid: MessageId)
    | CallsUnder(key: RxidKey)
    | LastSeq(flow: FlowKey)

  predicate Present(t: Tables, e: Entry) {
    match e
    case Incoming(key) => key in t.incoming
    case Outgoing(rid) => rid in t.outgoing
    case CallsUnder(key) => key in t.peers
    case LastSeq(flow) => flow in t.maxSeq
  }

  /** What the table beside the entry's says of its age. */
  function TouchedAt(t: Tables, e: Entry): Option<Time> {
    match e
    case Incoming(key) => if key in t.incomingTouched then Some(t.incomingTouched[key]) else None
    case Outgoing(rid) => if rid in t.outgoingTouched then Some(t.outgoingTouched[rid]) else None
    case CallsUnder(key) => if key in t.peersTouched then Some(t.peersTouched[key]) else None
    case LastSeq(flow) => if flow in t.maxSeqTouched then Some(t.maxSeqTouched[flow]) else None
  }

  /** The continuation goes by this side's entry. */
  predicate GoesBy(t: Tables, step: Step, key: RxidKey, viaIncoming: bool) {
    step.Continuation? && KeyOf(step.f, step.xid) == key
    && match Continued(t, step.f, step.xid, step.ok, step.now).route
       case None => false
       case Some(route) => route.viaIncoming == viaIncoming
  }

  /** Whether the step uses the entry: makes it, goes by it, or keeps it fresh. */
  predicate Uses(t: Tables, step: Step, e: Entry) {
    match e
    case Incoming(key) =>
      (step.NewRequest? && step.key == key) || GoesBy(t, step, key, true)
      || ((step.CloseStreamIn? || step.CancelIn?) && step.key == key && key in t.incoming)
    case Outgoing(rid) =>
      (step.PeerCall? && step.f.frame.id == rid) || (step.LogIn? && step.rid == rid && rid in t.outgoing)
      || (step.Continuation? && step.f.frame.id == rid && GoesBy(t, step, KeyOf(step.f, step.xid), false))
    case CallsUnder(key) =>
      Calls(step, key)
      || (step.CancelIn? && !step.forceKill && step.key == key && key in t.incoming && key in t.peers)
    case LastSeq(flow) =>
      (step.PeerCall? && step.f.frame.Key() == flow)
      || (step.FlowOut? && !IsTerminal(step.out.kind) && step.out.Key() == flow)
  }

  /** When; the record of calls is used at a cancel's second reading of the clock. */
  function TimeOf(step: Step, e: Entry): Time
    requires !step.Unserved? && !step.Death?
  {
    if step.CancelIn? && e.CallsUnder? then step.later else step.now
  }

  /** When the steps last used the entry. */
  function LastUse(ts: seq<Tables>, steps: seq<Step>, e: Entry): Option<Time>
    requires |ts| == |steps| + 1
    decreases |steps|
  {
    if steps == [] then None
    else
      var n := |steps| - 1;
      if Uses(ts[n], steps[n], e) then Some(TimeOf(steps[n], e)) else LastUse(ts[..n + 1], steps[..n], e)
  }

  /** What the step leaves of the entry is as old as its use, or as it was. */
  ghost predicate AgesBy(t: Tables, u: Tables, e: Entry, used: Option<Time>) {
    Present(u, e) ==>
      if used.Some? then TouchedAt(u, e) == used else Present(t, e) && TouchedAt(u, e) == TouchedAt(t, e)
  }

  // ---- One step --------------------------------------------------------------------------------------

  lemma TableAges<K(!new), V>(table: map<K, V>, touched: map<K, Time>,
                              after: map<K, V>, afterTouched: map<K, Time>, k: K)
    requires TableCollected(table, touched, after, afterTouched) && k in after
    ensures k in table && (k in afterTouched <==> k in touched)
    ensures k in touched ==> afterTouched[k] == touched[k]
  {
  }

  lemma CollectedAges(t: Tables, u: Tables, e: Entry)
    requires Collected(t, u)
    ensures AgesBy(t, u, e, None)
  {
    hide TableCollected;
    if Present(u, e) {
      match e
      case Incoming(key) => TableAges(t.incoming, t.incomingTouched, u.incoming, u.incomingTouched, key);
      case Outgoing(rid) => TableAges(t.outgoing, t.outgoingTouched, u.outgoing, u.outgoingTouched, rid);
      case CallsUnder(key) => TableAges(t.peers, t.peersTouched, u.peers, u.peersTouched, key);
      case LastSeq(flow) => TableAges(t.maxSeq, t.maxSeqTouched, u.maxSeq, u.maxSeqTouched, flow);
    }
  }

  lemma AgesChain(t: Tables, m: Tables, u: Tables, e: Entry, used: Option<Time>)
    requires AgesBy(t, m, e, used) && AgesBy(m, u, e, None)
    ensures AgesBy(t, u, e, used)
  {
  }

  lemma RecordedAges(t: Tables, key: RxidKey, idx: Cartridge, now: Time, e: Entry)
    ensures AgesBy(t, Recorded(t, key, idx, now), e, if e == Incoming(key) then Some(now) else None)
  {
  }

  lemma ForgottenAges(t: Tables, key: RxidKey, e: Entry)
    ensures AgesBy(t, Forgotten(t, key), e, None)
  {
  }

  lemma RequestAges(t: Tables, step: Step, u: Tables, e: Entry)
    requires Next(t, step, u) && step.NewRequest?
    ensures AgesBy(t, u, e, if e == Incoming(step.key) then Some(step.now) else None)
  {
    hide Collected, AgesBy, Recorded, Forgotten;
    var r := Recorded(t, step.key, step.idx, step.now);
    var m :| Collected(r, m) && u == if step.ok then m else Forgotten(m, step.key);
    var used := if e == Incoming(step.key) then Some(step.now) else None;
    RecordedAges(t, step.key, step.idx, step.now, e);
    CollectedAges(r, m, e);
    AgesChain(t, r, m, e, used);
    ForgottenAges(m, step.key, e);
    AgesChain(t, m, Forgotten(m, step.key), e, used);
  }

  lemma TouchAges(t: Tables, key: RxidKey, viaIncoming: bool, now: Time, e: Entry)
    requires if viaIncoming then key in t.incoming else key.rid in t.outgoing
    ensures AgesBy(t, Touch(t, key, viaIncoming, now), e,
                   if e == (if viaIncoming then Incoming(key) else Outgoing(key.rid)) then Some(now) else None)
  {
  }

  lemma FailedAges(t: Tables, key: RxidKey, e: Entry)
    ensures AgesBy(t, Failed(t, key).0, e, None)
  {
  }

  lemma MarkedAges(t: Tables, body: set<RxidKey>, response: set<RxidKey>, e: Entry)
    ensures AgesBy(t, t.(bodyDone := body, responseDone := response), e, None)
  {
  }

  lemma EndedInboundAges(t: Tables, key: RxidKey, viaIncoming: bool, e: Entry)
    ensures AgesBy(t, EndedInbound(t, key, viaIncoming), e, None)
  {
    hide AgesBy, Forgotten;
    if !viaIncoming {
      CallEndedAges(t, key.rid, e);
    } else if key in t.responseDone {
      var unmarked := t.(responseDone := t.responseDone - {key});
      assert unmarked == t.(bodyDone := t.bodyDone, responseDone := t.responseDone - {key});
      MarkedAges(t, t.bodyDone, t.responseDone - {key}, e);
      ForgottenAges(unmarked, key, e);
      AgesChain(t, unmarked, Forgotten(unmarked, key), e, None);
    } else {
      assert t.(bodyDone := t.bodyDone + {key})
          == t.(bodyDone := t.bodyDone + {key}, responseDone := t.responseDone);
      MarkedAges(t, t.bodyDone + {key}, t.responseDone, e);
    }
  }

  lemma CallEndedAges(t: Tables, rid: MessageId, e: Entry)
    ensures AgesBy(t, t.(outgoing := t.outgoing - {rid}, outgoingTouched := t.outgoingTouched - {rid}), e, None)
  {
  }

  lemma SameAges(t: Tables, e: Entry)
    ensures AgesBy(t, t, e, None)
  {
  }

  lemma RouteThere(t: Tables, f: HostFrame, key: RxidKey)
    requires RouteOf(t, f, key).Some?
    ensures if RouteOf(t, f, key).value.viaIncoming then key in t.incoming else key.rid in t.outgoing
  {
  }

  lemma ContinuedAges(t: Tables, f: HostFrame, xid: MessageId, ok: bool, now: Time, e: Entry)
    ensures var step := Continuation(f, xid, ok, now);
            AgesBy(t, Continued(t, f, xid, ok, now).tables, e, if Uses(t, step, e) then Some(now) else None)
  {
    hide AgesBy, RouteOf, Touch, Failed, EndedInbound;
    var key := RxidKey(xid, f.frame.id);
    SameAges(t, e);
    if !(f.frame.kind == Credit && f.direction.None?) && RouteOf(t, f, key).Some? {
      var via := RouteOf(t, f, key).value.viaIncoming;
      RouteThere(t, f, key);
      var touched := Touch(t, key, via, now);
      var used := if e == (if via then Incoming(key) else Outgoing(key.rid)) then Some(now) else None;
      TouchAges(t, key, via, now, e);
      FailedAges(touched, key, e);
      AgesChain(t, touched, Failed(touched, key).0, e, used);
      EndedInboundAges(touched, key, via, e);
      AgesChain(t, touched, EndedInbound(touched, key, via), e, used);
    }
  }

  lemma InvokedAges(t: Tables, idx: Cartridge, f: HostFrame, parent: Option<RxidKey>, now: Time, e: Entry)
    ensures var uses := e == Outgoing(f.frame.id) || e == LastSeq(f.frame.Key())
                        || (parent.Some? && e == CallsUnder(parent.value));
            AgesBy(t, Invoked(t, idx, f, parent, now), e, if uses then Some(now) else None)
  {
  }

  lemma NotedAges(t: Tables, f: Frame, now: Time, e: Entry)
    ensures AgesBy(t, NotedSeq(t, f, now), e, if e == LastSeq(f.Key()) then Some(now) else None)
  {
  }

  lemma EndedOutboundAges(t: Tables, f: Frame, e: Entry)
    ensures AgesBy(t, EndedOutbound(t, f), e, None)
  {
    hide AgesBy, Forgotten, Silenced;
    var quiet := Silenced(t, f.Key());
    SilencedAges(t, f.Key(), e);
    if f.xid.Some? {
      var key := RxidKey(f.xid.value, f.id);
      SameAges(quiet, e);
      var unmarked := quiet.(bodyDone := quiet.bodyDone - {key});
      assert unmarked == quiet.(bodyDone := quiet.bodyDone - {key}, responseDone := quiet.responseDone);
      MarkedAges(quiet, quiet.bodyDone - {key}, quiet.responseDone, e);
      ForgottenAges(unmarked, key, e);
      AgesChain(quiet, unmarked, Forgotten(unmarked, key), e, None);
      assert quiet.(responseDone := quiet.responseDone + {key})
          == quiet.(bodyDone := quiet.bodyDone, responseDone := quiet.responseDone + {key});
      MarkedAges(quiet, quiet.bodyDone, quiet.responseDone + {key}, e);
      AgesChain(t, quiet, ResponseEnded(quiet, key), e, None);
    }
  }

  lemma SilencedAges(t: Tables, flow: FlowKey, e: Entry)
    ensures AgesBy(t, Silenced(t, flow), e, None)
  {
  }

  lemma SweptAges(t: Tables, idx: Cartridge, e: Entry)
    ensures AgesBy(t, Swept(t, idx), e, None)
  {
  }

  lemma CancelAges(t: Tables, step: Step, e: Entry)
    requires step.CancelIn?
    ensures AgesBy(t, Cancelled(t, step.key, step.forceKill, step.now, step.later).tables, e,
                   if Uses(t, step, e) then Some(TimeOf(step, e)) else None)
  {
    hide AgesBy, Touch;
    SameAges(t, e);
    if step.key in t.incoming {
      var touched := Touch(t, step.key, true, step.now);
      var used := if e == Incoming(step.key) then Some(step.now) else None;
      TouchAges(t, step.key, true, step.now, e);
      if !step.forceKill && step.key in t.peers {
        assert touched.peersTouched == t.peersTouched && touched.peers == t.peers by {
          TouchKeepsPeers(t, step.key, step.now);
        }
        CallsAges(t, touched, step.key, step.later, e, used);
      }
    }
  }

  lemma TouchKeepsPeers(t: Tables, key: RxidKey, now: Time)
    ensures Touch(t, key, true, now).peers == t.peers && Touch(t, key, true, now).peersTouched == t.peersTouched
  {
  }

  lemma CallsAges(t: Tables, m: Tables, key: RxidKey, later: Time, e: Entry, used: Option<Time>)
    requires AgesBy(t, m, e, used) && m.peers == t.peers && key in t.peers
    requires e.CallsUnder? ==> used.None?
    ensures AgesBy(t, m.(peersTouched := m.peersTouched[key := later]), e,
                   if e == CallsUnder(key) then Some(later) else used)
  {
  }

  lemma AgeStep(t: Tables, step: Step, u: Tables, e: Entry)
    requires Next(t, step, u)
    ensures AgesBy(t, u, e, if Uses(t, step, e) then Some(TimeOf(step, e)) else None)
  {
    hide AgesBy, Collected, Admitted, Continued, Invoked, NotedSeq, EndedOutbound, Swept, Cancelled;
    match step
    case NewRequest(_, _, _, _) => RequestAges(t, step, u, e);
    case Continuation(f, xid, ok, now) => ContinuedAges(t, f, xid, ok, now, e);
    case Unserved(_) => SameAges(t, e);
    case LogIn(rid, now) => LogAges(t, rid, now, e);
    case CloseStreamIn(key, now) => TapAges(t, key, now, e);
    case CancelIn(_, _, _, _) => CancelAges(t, step, e);
    case PeerCall(idx, f, parent, now) =>
      var called := Invoked(t, idx, f, parent, now);
      InvokedAges(t, idx, f, parent, now, e);
      CollectedAges(called, u, e);
      AgesChain(t, called, u, e, if Uses(t, step, e) then Some(now) else None);
    case FlowOut(f, now) =>
      if IsTerminal(f.kind) {
        EndedOutboundAges(t, f, e);
      } else {
        NotedAges(t, f, now, e);
        CollectedAges(NotedSeq(t, f, now), u, e);
        AgesChain(t, NotedSeq(t, f, now), u, e, if Uses(t, step, e) then Some(now) else None);
      }
    case Death(idx) => SweptAges(t, idx, e);
  }

  lemma LogAges(t: Tables, rid: MessageId, now: Time, e: Entry)
    ensures AgesBy(t, Logged(t, rid, now), e, if e == Outgoing(rid) && rid in t.outgoing then Some(now) else None)
  {
  }

  lemma TapAges(t: Tables, key: RxidKey, now: Time, e: Entry)
    ensures AgesBy(t, Tapped(t, key, now), e, if e == Incoming(key) && key in t.incoming then Some(now) else None)
  {
  }

  // ---- Over runs -----------------------------------------------------------------------------------

  /** In every reachable state an entry of any table is as old as its last use. */
  lemma {:induction false} AgeIsLastUse(ts: seq<Tables>, steps: seq<Step>, e: Entry, n: nat)
    requires Trace(ts, steps) && ts[0] == NoRoutes && n <= |steps|
    ensures Present(ts[n], e) ==>
              LastUse(ts[..n + 1], steps[..n], e).Some?
              && TouchedAt(ts[n], e) == LastUse(ts[..n + 1], steps[..n], e)
  {
    hide Next, Uses, TimeOf, TouchedAt, Present;
    if n > 0 {
      AgeIsLastUse(ts, steps, e, n - 1);
      AgeStep(ts[n - 1], steps[n - 1], ts[n], e);
      assert ts[..n + 1][..n] == ts[..n] && steps[..n][..n - 1] == steps[..n - 1];
    } else {
      NothingPresent(e);
    }
  }

  lemma NothingPresent(e: Entry)
    ensures !Present(NoRoutes, e)
  {
  }

  /** So what a new request's collection takes was last used no later than anything it leaves. */
  lemma EvictedIsLeastRecent(ts: seq<Tables>, steps: seq<Step>, n: nat, k: RxidKey, j: RxidKey)
    requires Trace(ts, steps) && ts[0] == NoRoutes && n < |steps| && steps[n].NewRequest? && steps[n].key != k
    requires k in ts[n].incoming && k !in ts[n + 1].incoming && j in ts[n + 1].incoming
    ensures var (gone, left) := (LastUse(ts[..n + 1], steps[..n], Incoming(k)),
                               LastUse(ts[..n + 2], steps[..n + 1], Incoming(j)));
            gone.Some? && left.Some? && gone.value <= left.value
  {
    AgeIsLastUse(ts, steps, Incoming(k), n);
    AgeIsLastUse(ts, steps, Incoming(j), n + 1);
    hide LastUse;
    OldestGoes(ts[n], steps[n], ts[n + 1], k, j);
  }

  lemma OldestGoes(t: Tables, step: Step, u: Tables, k: RxidKey, j: RxidKey)
    requires Next(t, step, u) && step.NewRequest? && step.key != k
    requires k in t.incoming && k !in u.incoming && j in u.incoming
    requires k in t.incomingTouched && j in u.incomingTouched
    ensures t.incomingTouched[k] <= u.incomingTouched[j]
  {
    var r := Recorded(t, step.key, step.idx, step.now);
    var m :| Collected(r, m) && u == if step.ok then m else Forgotten(m, step.key);
    hide Collected;
    assert TableCollected(r.incoming, r.incomingTouched, m.incoming, m.incomingTouched) by {
      CollectedTable(r, m);
    }
    assert k in r.incoming && k !in m.incoming && j in m.incoming && j in m.incomingTouched;
    assert m.incomingTouched[j] == u.incomingTouched[j] && r.incomingTouched[k] == t.incomingTouched[k];
    OldestOf(r.incoming, r.incomingTouched, m.incoming, m.incomingTouched, k, j);
  }

  lemma CollectedTable(t: Tables, u: Tables)
    requires Collected(t, u)
    ensures TableCollected(t.incoming, t.incomingTouched, u.incoming, u.incomingTouched)
  {
  }

  lemma OldestOf<K(!new), V>(table: map<K, V>, touched: map<K, Time>, after: map<K, V>, afterTouched: map<K, Time>,
                             k: K, j: K)
    requires TableCollected(table, touched, after, afterTouched)
    requires k in table && k !in after && j in after && k in touched && j in afterTouched
    ensures touched[k] <= afterTouched[j]
  {
    var victims: set<K> :| OldestFirst(table.Keys, victims, touched) && |victims| == Evictions(|table|)
                           && after == table - victims && afterTouched == touched - victims;
    assert k in victims && j !in victims;
    assert Age(touched, k) <= Age(touched, j);
  }
}
