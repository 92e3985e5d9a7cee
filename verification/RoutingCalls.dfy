/**
  The peer calls a request makes, over whole runs of the host, and whom a cancel of
  the request is passed on to.
*/
module RoutingCalls {
  import opened Frames
  import opened RoutingRuns
  import opened RoutingTables
  import opened Wrappers

  predicate Calls(step: Step, key: RxidKey) {
    step.PeerCall? && step.parent == Some(key)
  }

  predicate Collects(step: Step) {
    step.NewRequest? || step.PeerCall? || (step.FlowOut? && !IsTerminal(step.out.kind))
  }

  /** The record of a request's calls goes: its cartridge dies, or the collector takes the record. */
  predicate DropsCalls(t: Tables, step: Step, u: Tables, key: RxidKey) {
    if step.Death? then key in t.incoming && t.incoming[key] == step.idx else Collects(step) && key !in u.peers
  }

  /** The calls made under the key, in order, since their record last went. */
  function CallsMade(ts: seq<Tables>, steps: seq<Step>, key: RxidKey): seq<MessageId>
    requires |ts| == |steps| + 1
    decreases |steps|
  {
    if steps == [] then []
    else
      var n := |steps| - 1;
      if DropsCalls(ts[n], steps[n], ts[n + 1], key) then []
      else
        CallsMade(ts[..n + 1], steps[..n], key) + if Calls(steps[n], key) then [steps[n].f.frame.id] else []
  }

  // ---- The record ----------------------------------------------------------------------------------

  function CallsOf(t: Tables, key: RxidKey): seq<MessageId> {
    if key in t.peers then t.peers[key] else []
  }

  lemma CollectedCalls(t: Tables, u: Tables, key: RxidKey)
    requires Collected(t, u)
    ensures CallsOf(u, key) == if key in u.peers then CallsOf(t, key) else []
  {
  }

  lemma RequestCalls(t: Tables, step: Step, u: Tables, key: RxidKey)
    requires Next(t, step, u) && step.NewRequest?
    ensures CallsOf(u, key) == if key in u.peers then CallsOf(t, key) else []
  {
    hide Collected, CallsOf;
    var r := Recorded(t, step.key, step.idx, step.now);
    var m :| Collected(r, m) && u == if step.ok then m else Forgotten(m, step.key);
    CollectedCalls(r, m, key);
    SamePeers(t, r, key);
    SamePeers(m, u, key);
  }

  lemma SamePeers(t: Tables, u: Tables, key: RxidKey)
    requires u.peers == t.peers
    ensures CallsOf(u, key) == CallsOf(t, key)
  {
  }

  lemma ContinuedCalls(t: Tables, f: HostFrame, xid: MessageId, ok: bool, now: Time)
    ensures Continued(t, f, xid, ok, now).tables.peers == t.peers
  {
    hide RouteOf, Touch, Failed, EndedInbound;
    var key := RxidKey(xid, f.frame.id);
    if RouteOf(t, f, key).Some? {
      var via := RouteOf(t, f, key).value.viaIncoming;
      TouchCalls(t, key, via, now);
      FailedCalls(Touch(t, key, via, now), key);
      EndedInboundCalls(Touch(t, key, via, now), key, via);
    }
  }

  lemma TouchCalls(t: Tables, key: RxidKey, via: bool, now: Time)
    ensures Touch(t, key, via, now).peers == t.peers
  {
  }

  lemma FailedCalls(t: Tables, key: RxidKey)
    ensures Failed(t, key).0.peers == t.peers
  {
  }

  lemma EndedInboundCalls(t: Tables, key: RxidKey, via: bool)
    ensures EndedInbound(t, key, via).peers == t.peers
  {
    hide Forgotten;
    ForgottenCalls(t.(responseDone := t.responseDone - {key}), key);
  }

  lemma EndedOutboundCalls(t: Tables, f: Frame)
    ensures EndedOutbound(t, f).peers == t.peers
  {
    hide Forgotten;
    if f.xid.Some? {
      var quiet, key := Silenced(t, f.Key()), RxidKey(f.xid.value, f.id);
      ForgottenCalls(quiet.(bodyDone := quiet.bodyDone - {key}), key);
    }
  }

  lemma ForgottenCalls(t: Tables, key: RxidKey)
    ensures Forgotten(t, key).peers == t.peers
  {
  }

  lemma InvokedCalls(t: Tables, idx: Cartridge, f: HostFrame, parent: Option<RxidKey>, now: Time, key: RxidKey)
    ensures CallsOf(Invoked(t, idx, f, parent, now), key)
         == CallsOf(t, key) + if parent == Some(key) then [f.frame.id] else []
  {
    assert CallsOf(t, key) + [] == CallsOf(t, key);
  }

  lemma CallsStep(t: Tables, step: Step, u: Tables, key: RxidKey)
    requires Next(t, step, u)
    ensures CallsOf(u, key)
         == if DropsCalls(t, step, u, key) then []
            else CallsOf(t, key) + if Calls(step, key) then [step.f.frame.id] else []
  {
    hide Collected, CallsOf, Admitted, Continued, Invoked, NotedSeq;
    assert CallsOf(t, key) + [] == CallsOf(t, key);
    if Touches(step) {
      OnlyTouches(t, step, u);
      SamePeers(t, u, key);
    }
    match step
    case NewRequest(_, _, _, _) => RequestCalls(t, step, u, key);
    case Continuation(f, xid, ok, now) =>
      ContinuedCalls(t, f, xid, ok, now);
      SamePeers(t, u, key);
    case PeerCall(idx, f, parent, now) =>
      InvokedCalls(t, idx, f, parent, now, key);
      CollectedCalls(Invoked(t, idx, f, parent, now), u, key);
    case FlowOut(f, now) => OutCalls(t, step, u, key);
    case Death(idx) => DeathCalls(t, idx, key);
    case _ =>
  }

  lemma OutCalls(t: Tables, step: Step, u: Tables, key: RxidKey)
    requires Next(t, step, u) && step.FlowOut?
    ensures CallsOf(u, key) == if Collects(step) && key !in u.peers then [] else CallsOf(t, key)
  {
    hide Collected, CallsOf, EndedOutbound;
    if IsTerminal(step.out.kind) {
      EndedOutboundCalls(t, step.out);
      SamePeers(t, u, key);
    } else {
      var noted := NotedSeq(t, step.out, step.now);
      SamePeers(t, noted, key);
      CollectedCalls(noted, u, key);
    }
  }

  lemma DeathCalls(t: Tables, idx: Cartridge, key: RxidKey)
    ensures CallsOf(Swept(t, idx), key)
         == if key in t.incoming && t.incoming[key] == idx then [] else CallsOf(t, key)
  {
  }

  lemma {:induction false} CallsAreRecorded(ts: seq<Tables>, steps: seq<Step>, key: RxidKey, n: nat)
    requires Trace(ts, steps) && ts[0] == NoRoutes && n <= |steps|
    ensures CallsOf(ts[n], key) == CallsMade(ts[..n + 1], steps[..n], key)
  {
    hide Next, DropsCalls, CallsOf;
    if n > 0 {
      CallsAreRecorded(ts, steps, key, n - 1);
      CallsStep(ts[n - 1], steps[n - 1], ts[n], key);
      assert ts[..n + 1][..n] == ts[..n] && steps[..n][..n - 1] == steps[..n - 1];
    } else {
      NothingRecorded(key);
    }
  }

  lemma NothingRecorded(key: RxidKey)
    ensures CallsOf(NoRoutes, key) == []
  {
  }

  // ---- The cancel ----------------------------------------------------------------------------------

  /**
    A cancel that does not kill is passed on to exactly the calls its request made, in
    the order they came, ended or not, since their record last went; one that kills to
    nobody, and neither is one of a request the host does not serve.
  */
  lemma CancelReachesCalls(ts: seq<Tables>, steps: seq<Step>, i: nat)
    requires Trace(ts, steps) && ts[0] == NoRoutes && i < |steps| && steps[i].CancelIn?
    ensures var (key, t) := (steps[i].key, ts[i]);
            var c := Cancelled(t, key, steps[i].forceKill, steps[i].now, steps[i].later);
            c.route == (if key in t.incoming then Some(t.incoming[key]) else None)
            && c.cascade == if key !in t.incoming || steps[i].forceKill then []
                            else CallsMade(ts[..i + 1], steps[..i], key)
  {
    CallsAreRecorded(ts, steps, steps[i].key, i);
    hide Next, CallsMade;
  }

  /**
    The record outlives the request: once both its ends have passed, a later request
    under the same key is handed the calls of the first, and a cancel of it is passed
    on to them.
  */
  lemma LaterRequestInherits(t: Tables, k: RxidKey, h: Cartridge, written: nat, answered: nat, now: Time)
    requires k in t.incoming && k in t.peers && k.rid !in t.outgoing && k !in t.bodyDone && k !in t.responseDone
    requires |t.incoming| < SOFT_WATERMARK && |t.outgoing| < SOFT_WATERMARK
    requires |t.peers| < SOFT_WATERMARK && |t.maxSeq| < SOFT_WATERMARK
    ensures var body := Continued(t, HostFrame(EndOf(k, written), None, None), k.xid, true, now).tables;
            var over := EndedOutbound(body, EndOf(k, answered));
            var again := Recorded(over, k, h, now);
            Next(body, FlowOut(EndOf(k, answered), now), over) && Next(over, NewRequest(k, h, true, now), again)
            && k !in over.incoming && Cancelled(again, k, false, now, now).cascade == t.peers[k]
  {
    hide EndedOutbound, Continued, Collected;
    var over := BothEnded(t, k, written, answered, now);
    var again := Recorded(over, k, h, now);
    assert again.incoming.Keys == t.incoming.Keys;
    assert |again.incoming.Keys| == |t.incoming.Keys|;
    FewerKeys(over.maxSeq, t.maxSeq);
    AdmittedBelow(over, k, h, now);
  }

  /** Below the watermark the collector takes nothing. */
  lemma AdmittedBelow(t: Tables, key: RxidKey, idx: Cartridge, now: Time)
    requires Below(Recorded(t, key, idx, now), SOFT_WATERMARK)
    ensures Next(t, NewRequest(key, idx, true, now), Recorded(t, key, idx, now))
  {
    var r := Recorded(t, key, idx, now);
    assert Collected(r, r);
  }

  lemma BothEnded(t: Tables, k: RxidKey, written: nat, answered: nat, now: Time) returns (over: Tables)
    requires k in t.incoming && k.rid !in t.outgoing && k !in t.bodyDone && k !in t.responseDone
    ensures var body := Continued(t, HostFrame(EndOf(k, written), None, None), k.xid, true, now).tables;
            over == EndedOutbound(body, EndOf(k, answered))
    ensures over.incoming == t.incoming - {k} && over.peers == t.peers && over.outgoing == t.outgoing
    ensures over.maxSeq.Keys <= t.maxSeq.Keys
  {
    var body := Continued(t, HostFrame(EndOf(k, written), None, None), k.xid, true, now).tables;
    assert body.bodyDone == t.bodyDone + {k} && body.incoming == t.incoming && body.peers == t.peers;
    assert body.outgoing == t.outgoing && body.maxSeq == t.maxSeq;
    hide Continued;
    over := EndedOutbound(body, EndOf(k, answered));
  }

  lemma FewerKeys<K, V>(some: map<K, V>, all: map<K, V>)
    requires some.Keys <= all.Keys
    ensures |some| <= |all|
  {
    assert some.Keys + (all.Keys - some.Keys) == all.Keys;
    assert |some.Keys| + |all.Keys - some.Keys| == |all.Keys|;
  }

  /** A call is its parent's when it names the parent's id, no other request having the same. */
  lemma CallsNameTheirParent(ts: seq<Tables>, steps: seq<Step>, i: nat, key: RxidKey)
    requires Trace(ts, steps) && i < |steps| && steps[i].PeerCall?
    requires forall k :: k in ts[i].incoming && k.rid == key.rid ==> k == key
    ensures Calls(steps[i], key) <==> key in ts[i].incoming && steps[i].f.parent == Some(key.rid)
  {
    assert Next(ts[i], steps[i], ts[i + 1]);
    hide Collected, Invoked;
  }
}
