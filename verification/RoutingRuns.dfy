/**
  The routing tables over whole runs of the host: any frames from the relay and
  from cartridges, any deaths, any choice by the collector.
*/
module RoutingRuns {
  import opened Frames
  import opened RoutingTables
  import opened Wrappers

  // `Unserved` is a REQ that no cartridge here can serve.
  datatype Step =
    | NewRequest(key: RxidKey, idx: Cartridge, ok: bool, now: Time)
    | Unserved(key: RxidKey)
    | Continuation(f: HostFrame, xid: MessageId, ok: bool, now: Time)
    | LogIn(rid: MessageId, now: Time)
    | CloseStreamIn(key: RxidKey, now: Time)
    | CancelIn(key: RxidKey, forceKill: bool, now: Time, later: Time)
    | PeerCall(idx: Cartridge, f: HostFrame, parent: Option<RxidKey>, now: Time)
    | FlowOut(out: Frame, now: Time)
    | Death(idx: Cartridge)

  /** The steps that change no table, whatever they do to its ages. */
  predicate Touches(step: Step) {
    step.Unserved? || step.LogIn? || step.CloseStreamIn? || step.CancelIn?
  }

  /** Recorded, collected, and forgotten again if the cartridge did not take it. */
  ghost predicate Admitted(t: Tables, key: RxidKey, idx: Cartridge, ok: bool, now: Time, u: Tables) {
    exists m :: Collected(Recorded(t, key, idx, now), m) && u == if ok then m else Forgotten(m, key)
  }

  /** Whether handling the step may take the tables from t to u. */
  ghost predicate Next(t: Tables, step: Step, u: Tables) {
    match step
    case NewRequest(key, idx, ok, now) => Admitted(t, key, idx, ok, now, u)
    case Continuation(f, xid, ok, now) => IsContinuation(f) && u == Continued(t, f, xid, ok, now).tables
    case Unserved(_) => u == t
    case LogIn(rid, now) => u == Logged(t, rid, now)
    case CloseStreamIn(key, now) => u == Tapped(t, key, now)
    case CancelIn(key, forceKill, now, later) => u == Cancelled(t, key, forceKill, now, later).tables
    case PeerCall(idx, f, parent, now) =>
      f.frame.kind == Req && ParentOf(t, f, parent) && Collected(Invoked(t, idx, f, parent, now), u)
    case FlowOut(f, now) =>
      IsFlow(f.kind) && f.kind != Req
      && if IsTerminal(f.kind) then u == EndedOutbound(t, f) else Collected(NotedSeq(t, f, now), u)
    case Death(idx) => u == Swept(t, idx)
  }

  ghost predicate Trace(ts: seq<Tables>, steps: seq<Step>) {
    |ts| == |steps| + 1 && forall i :: 0 <= i < |steps| ==> Next(ts[i], steps[i], ts[i + 1])
  }

  // ---- Bounded tables ----------------------------------------------------------------------------

  lemma NextSound(t: Tables, step: Step, u: Tables)
    requires Sound(t) && Next(t, step, u)
    ensures Sound(u)
  {
    hide Sound, Collected, Recorded, Forgotten, Invoked, NotedSeq, EndedOutbound, Continued, Swept, Tapped, Cancelled;
    match step
    case NewRequest(key, idx, ok, now) =>
      var m :| Collected(Recorded(t, key, idx, now), m) && u == if ok then m else Forgotten(m, key);
      RequestSound(t, key, idx, now, m);
    case Continuation(f, xid, ok, now) => ContinuedSound(t, f, xid, ok, now);
    case Unserved(_) =>
    case LogIn(rid, now) => LoggedSound(t, rid, now);
    case CloseStreamIn(key, now) => TappedSound(t, key, now);
    case CancelIn(key, forceKill, now, later) => CancelledSound(t, key, forceKill, now, later);
    case PeerCall(idx, f, parent, now) =>
      InvokedGrows(t, idx, f, parent, now);
      CollectedSound(Invoked(t, idx, f, parent, now), u);
    case FlowOut(f, now) =>
      if IsTerminal(f.kind) {
        EndedOutboundSound(t, f);
      } else {
        NotedGrows(t, f, now);
        CollectedSound(NotedSeq(t, f, now), u);
      }
    case Death(idx) => SweptSound(t, idx);
  }

  lemma RequestSound(t: Tables, key: RxidKey, idx: Cartridge, now: Time, m: Tables)
    requires Sound(t) && Collected(Recorded(t, key, idx, now), m)
    ensures Sound(m) && Sound(Forgotten(m, key))
  {
    hide Sound, Collected, Recorded, Forgotten;
    RecordedGrows(t, key, idx, now);
    CollectedSound(Recorded(t, key, idx, now), m);
    ForgottenSound(m, key);
  }

  lemma LoggedSound(t: Tables, rid: MessageId, now: Time)
    requires Sound(t)
    ensures Sound(Logged(t, rid, now))
  {
    hide Sound;
    if rid in t.outgoing {
      TouchSound(t, RxidKey(0, rid), false, now);
    }
  }

  /**
    In every reachable state every table has exactly its touched keys, holds fewer
    entries than the watermark, and no request is marked both ways; so a collection
    in a run only ever removes a quarter, and its last resort is never entered.
  */
  lemma {:induction false} TablesStaySound(ts: seq<Tables>, steps: seq<Step>, i: nat)
    requires Trace(ts, steps) && ts[0] == NoRoutes && i <= |steps|
    ensures Sound(ts[i])
  {
    if i > 0 {
      TablesStaySound(ts, steps, i - 1);
      NextSound(ts[i - 1], steps[i - 1], ts[i]);
      hide Sound, Next;
    }
  }

  // ---- The life of a request --------------------------------------------------------------------

  datatype Life = Life(entry: Option<Cartridge>, bodyDone: bool, responseDone: bool)

  function LifeOf(t: Tables, k: RxidKey): Life {
    Life(if k in t.incoming then Some(t.incoming[k]) else None, k in t.bodyDone, k in t.responseDone)
  }

  /** Where a request must stand once its body, its response or both have ended. */
  function Expected(h: Cartridge, body: bool, response: bool): Life {
    if body && response then Life(None, false, false) else Life(Some(h), body, response)
  }

  predicate BodyEnds(step: Step, k: RxidKey) {
    step.Continuation? && IsTerminal(step.f.frame.kind) && RxidKey(step.xid, step.f.frame.id) == k
  }

  predicate ResponseEnds(step: Step, k: RxidKey) {
    step.FlowOut? && IsTerminal(step.out.kind) && step.out.xid == Some(k.xid) && step.out.id == k.rid
  }

  /** Nothing but the request's own ends takes its entry: no reuse of its id, no death, no failed write, no eviction. */
  predicate Undisturbed(t: Tables, step: Step, u: Tables, k: RxidKey, h: Cartridge) {
    k.rid !in t.outgoing
    && match step
       case NewRequest(key, _, _, _) => key != k && (k in t.incoming ==> k in u.incoming)
       case Continuation(f, xid, ok, _) => RxidKey(xid, f.frame.id) == k ==> ok
       case Unserved(_) => true
       case LogIn(_, _) => true
       case CloseStreamIn(_, _) => true
       case CancelIn(_, _, _, _) => true
       case PeerCall(_, _, _, _) => k in t.incoming ==> k in u.incoming
       case FlowOut(out, _) => !IsTerminal(out.kind) ==> (k in t.incoming ==> k in u.incoming)
       case Death(idx) => idx != h
  }

  /** What the tables say of one request: its own entry and marks, and who called under its id. */
  datatype View = View(life: Life, caller: Option<Cartridge>)

  function ViewOf(t: Tables, k: RxidKey): View {
    View(LifeOf(t, k), if k.rid in t.outgoing then Some(t.outgoing[k.rid]) else None)
  }

  lemma TouchView(t: Tables, key: RxidKey, viaIncoming: bool, now: Time, k: RxidKey)
    ensures ViewOf(Touch(t, key, viaIncoming, now), k) == ViewOf(t, k)
  {
  }

  lemma FailedView(t: Tables, key: RxidKey, k: RxidKey)
    ensures ViewOf(Failed(t, key).0, k)
         == View(if k == key then Life(None, false, false) else LifeOf(t, k),
                 if k.rid == key.rid then None else ViewOf(t, k).caller)
  {
  }

  lemma ForgottenView(t: Tables, key: RxidKey, k: RxidKey)
    ensures ViewOf(Forgotten(t, key), k)
         == if k == key then ViewOf(t, k).(life := LifeOf(t, k).(entry := None)) else ViewOf(t, k)
  {
  }

  lemma MarkedView(t: Tables, body: set<RxidKey>, response: set<RxidKey>, k: RxidKey)
    ensures ViewOf(t.(bodyDone := body, responseDone := response), k)
         == ViewOf(t, k).(life := LifeOf(t, k).(bodyDone := k in body, responseDone := k in response))
  {
  }

  function LifeAfterBody(life: Life): Life {
    if life.responseDone then Life(None, life.bodyDone, false) else life.(bodyDone := true)
  }

  lemma EndedInboundView(t: Tables, key: RxidKey, viaIncoming: bool, k: RxidKey)
    ensures ViewOf(EndedInbound(t, key, viaIncoming), k)
         == if viaIncoming then ViewOf(t, k).(life := if k == key then LifeAfterBody(LifeOf(t, k)) else LifeOf(t, k))
            else ViewOf(t, k).(caller := if k.rid == key.rid then None else ViewOf(t, k).caller)
  {
    if viaIncoming {
      var unmarked := t.(responseDone := t.responseDone - {key});
      MarkedView(t, t.bodyDone, t.responseDone - {key}, k);
      ForgottenView(unmarked, key, k);
      MarkedView(t, t.bodyDone + {key}, t.responseDone, k);
      assert t == t.(bodyDone := t.bodyDone, responseDone := t.responseDone);
      hide Forgotten;
    }
  }

  function LifeAfterResponse(life: Life): Life {
    if life.bodyDone then Life(None, false, life.responseDone)
    else if life.entry.Some? then life.(responseDone := true) else life
  }

  lemma ResponseEndedView(t: Tables, key: RxidKey, k: RxidKey)
    ensures ViewOf(ResponseEnded(t, key), k)
         == ViewOf(t, k).(life := if k == key then LifeAfterResponse(LifeOf(t, k)) else LifeOf(t, k))
  {
    var unmarked := t.(bodyDone := t.bodyDone - {key});
    MarkedView(t, t.bodyDone - {key}, t.responseDone, k);
    ForgottenView(unmarked, key, k);
    MarkedView(t, t.bodyDone, t.responseDone + {key}, k);
    hide Forgotten;
  }

  lemma EndedOutboundView(t: Tables, f: Frame, k: RxidKey)
    ensures ViewOf(EndedOutbound(t, f), k)
         == ViewOf(t, k).(life := if f.xid == Some(k.xid) && f.id == k.rid then LifeAfterResponse(LifeOf(t, k))
                                  else LifeOf(t, k))
  {
    if f.xid.Some? {
      ResponseEndedView(Silenced(t, f.Key()), RxidKey(f.xid.value, f.id), k);
    }
  }

  function KeyOf(f: HostFrame, xid: MessageId): RxidKey {
    RxidKey(xid, f.frame.id)
  }

  /** A continuation under another key leaves a request's own entry and marks alone. */
  lemma ContinuedView(t: Tables, f: HostFrame, xid: MessageId, ok: bool, now: Time, k: RxidKey)
    ensures var key, u := KeyOf(f, xid), Continued(t, f, xid, ok, now).tables;
            (key != k ==> LifeOf(u, k) == LifeOf(t, k))
            && (key.rid != k.rid ==> ViewOf(u, k) == ViewOf(t, k))
            && (ok && !IsTerminal(f.frame.kind) ==> ViewOf(u, k) == ViewOf(t, k))
            && (key == k && ok && IsTerminal(f.frame.kind) && RouteOf(t, f, k).Some? ==>
                  ViewOf(u, k) == if RouteOf(t, f, k).value.viaIncoming
                                  then ViewOf(t, k).(life := LifeAfterBody(LifeOf(t, k)))
                                  else ViewOf(t, k).(caller := None))
            && (key == k && !ok && RouteOf(t, f, k).Some? ==>
                  ViewOf(u, k) == View(Life(None, false, false), None) || u == t)
            && (key == k && RouteOf(t, f, k).None? ==> u == t)
  {
    var key := KeyOf(f, xid);
    hide Touch, Failed, EndedInbound, LifeOf;
    if RouteOf(t, f, key).Some? {
      var via := RouteOf(t, f, key).value.viaIncoming;
      TouchView(t, key, via, now, k);
      FailedView(Touch(t, key, via, now), key, k);
      EndedInboundView(Touch(t, key, via, now), key, via, k);
    }
  }

  lemma CollectedIncoming(t: Tables, u: Tables, k: RxidKey)
    requires Collected(t, u)
    ensures k in u.incoming ==> k in t.incoming && u.incoming[k] == t.incoming[k]
    ensures u.bodyDone == t.bodyDone && u.responseDone == t.responseDone
  {
  }

  lemma CollectedOutgoing(t: Tables, u: Tables, rid: MessageId)
    requires Collected(t, u)
    ensures rid in u.outgoing ==> rid in t.outgoing && u.outgoing[rid] == t.outgoing[rid]
  {
  }

  /** The marks stay, and what is there was there before, unless it is this step's own. */
  ghost predicate Quiet(t: Tables, u: Tables, k: RxidKey, newEntry: bool, newCall: bool) {
    LifeOf(u, k).bodyDone == LifeOf(t, k).bodyDone && LifeOf(u, k).responseDone == LifeOf(t, k).responseDone
    && (k in u.incoming && !newEntry ==> k in t.incoming && u.incoming[k] == t.incoming[k])
    && (k.rid in u.outgoing && !newCall ==> k.rid in t.outgoing && u.outgoing[k.rid] == t.outgoing[k.rid])
  }

  lemma CollectedQuiet(t: Tables, u: Tables, k: RxidKey)
    requires Collected(t, u)
    ensures Quiet(t, u, k, false, false)
  {
    CollectedIncoming(t, u, k);
    CollectedOutgoing(t, u, k.rid);
    hide Collected;
  }

  lemma RequestQuiet(t: Tables, key: RxidKey, idx: Cartridge, ok: bool, now: Time, m: Tables, k: RxidKey)
    requires Collected(Recorded(t, key, idx, now), m)
    ensures Quiet(t, if ok then m else Forgotten(m, key), k, key == k, false)
  {
    hide Collected;
    CollectedQuiet(Recorded(t, key, idx, now), m, k);
    RecordedQuiet(t, key, idx, now, k);
    ForgottenQuiet(t, m, key, k);
    hide Recorded, Forgotten, LifeOf;
  }

  lemma RecordedQuiet(t: Tables, key: RxidKey, idx: Cartridge, now: Time, k: RxidKey)
    ensures Quiet(t, Recorded(t, key, idx, now), k, key == k, false)
  {
  }

  lemma ForgottenQuiet(t: Tables, m: Tables, key: RxidKey, k: RxidKey)
    requires Quiet(t, m, k, key == k, false)
    ensures Quiet(t, Forgotten(m, key), k, key == k, false)
  {
  }

  lemma CallQuiet(t: Tables, idx: Cartridge, f: HostFrame, parent: Option<RxidKey>, now: Time, u: Tables, k: RxidKey)
    requires Collected(Invoked(t, idx, f, parent, now), u)
    ensures Quiet(t, u, k, false, f.frame.id == k.rid)
  {
    InvokedKeeps(t, idx, f, parent, now, k);
    CollectedQuiet(Invoked(t, idx, f, parent, now), u, k);
    hide Invoked, Collected;
  }

  lemma NotedQuiet(t: Tables, f: Frame, now: Time, u: Tables, k: RxidKey)
    requires Collected(NotedSeq(t, f, now), u)
    ensures Quiet(t, u, k, false, false)
  {
    CollectedQuiet(NotedSeq(t, f, now), u, k);
    hide Collected;
  }

  lemma OnlyTouches(t: Tables, step: Step, u: Tables)
    requires Next(t, step, u) && Touches(step)
    ensures SameTables(t, u)
  {
    hide Tapped, Cancelled, Logged;
  }

  /**
    Everything but a continuation, an end passing out and a death: entries come, go only
    to the collector, and keep their marks.
  */
  lemma QuietView(t: Tables, step: Step, u: Tables, k: RxidKey)
    requires Next(t, step, u) && !step.Continuation? && !step.Death? && !(step.FlowOut? && IsTerminal(step.out.kind))
    ensures Quiet(t, u, k, step.NewRequest? && step.key == k, step.PeerCall? && step.f.frame.id == k.rid)
  {
    hide Quiet, Collected, Recorded, Forgotten, Invoked, NotedSeq, Tapped, Cancelled, Logged;
    if Touches(step) {
      TouchQuiet(t, step, u, k);
    }
    match step
    case NewRequest(key, idx, ok, now) =>
      var m :| Collected(Recorded(t, key, idx, now), m) && u == if ok then m else Forgotten(m, key);
      RequestQuiet(t, key, idx, ok, now, m, k);
    case PeerCall(idx, f, parent, now) => CallQuiet(t, idx, f, parent, now, u, k);
    case FlowOut(f, now) => NotedQuiet(t, f, now, u, k);
    case _ =>
  }

  lemma TouchQuiet(t: Tables, step: Step, u: Tables, k: RxidKey)
    requires Next(t, step, u) && Touches(step)
    ensures Quiet(t, u, k, false, false)
  {
    OnlyTouches(t, step, u);
    hide Next;
  }

  lemma InvokedKeeps(t: Tables, idx: Cartridge, f: HostFrame, parent: Option<RxidKey>, now: Time, k: RxidKey)
    ensures var u := Invoked(t, idx, f, parent, now);
            u.incoming == t.incoming && u.bodyDone == t.bodyDone && u.responseDone == t.responseDone
            && (f.frame.id != k.rid && k.rid in u.outgoing ==>
                  k.rid in t.outgoing && u.outgoing[k.rid] == t.outgoing[k.rid])
  {
  }

  lemma LifeStep(t: Tables, step: Step, u: Tables, k: RxidKey, h: Cartridge, body: bool, response: bool)
    requires Next(t, step, u) && Undisturbed(t, step, u, k, h)
    requires LifeOf(t, k) == Expected(h, body, response)
    ensures LifeOf(u, k) == Expected(h, body || BodyEnds(step, k), response || ResponseEnds(step, k))
  {
    match step
    case Continuation(f, xid, ok, now) =>
      BodyLife(t, f, xid, ok, now, k, h, body, response);
    case Death(idx) =>
    case FlowOut(f, now) =>
      hide LifeOf, EndedOutbound, Collected, NotedSeq;
      if IsTerminal(f.kind) {
        EndedOutboundView(t, f, k);
      } else {
        QuietLife(t, step, u, k, h);
      }
    case _ =>
      QuietLife(t, step, u, k, h);
  }

  lemma QuietLife(t: Tables, step: Step, u: Tables, k: RxidKey, h: Cartridge)
    requires Next(t, step, u) && !step.Continuation? && !step.Death? && !(step.FlowOut? && IsTerminal(step.out.kind))
    requires Undisturbed(t, step, u, k, h)
    ensures LifeOf(u, k) == LifeOf(t, k)
  {
    if Touches(step) {
      OnlyTouches(t, step, u);
    }
    hide Next;
    QuietView(t, step, u, k);
  }

  lemma BodyLife(t: Tables, f: HostFrame, xid: MessageId, ok: bool, now: Time, k: RxidKey, h: Cartridge,
                 body: bool, response: bool)
    requires LifeOf(t, k) == Expected(h, body, response) && k.rid !in t.outgoing
    requires IsContinuation(f) && (KeyOf(f, xid) == k ==> ok)
    ensures LifeOf(Continued(t, f, xid, ok, now).tables, k)
         == Expected(h, body || (IsTerminal(f.frame.kind) && KeyOf(f, xid) == k), response)
  {
    ContinuedView(t, f, xid, ok, now, k);
    hide Continued;
  }

  predicate SomeBodyEnd(steps: seq<Step>, k: RxidKey) {
    exists i :: 0 <= i < |steps| && BodyEnds(steps[i], k)
  }

  predicate SomeResponseEnd(steps: seq<Step>, k: RxidKey) {
    exists i :: 0 <= i < |steps| && ResponseEnds(steps[i], k)
  }

  ghost predicate UndisturbedRun(ts: seq<Tables>, steps: seq<Step>, k: RxidKey, h: Cartridge)
    requires Trace(ts, steps)
  {
    forall i :: 0 <= i < |steps| ==> Undisturbed(ts[i], steps[i], ts[i + 1], k, h)
  }

  /**
    A request's entry lives until both its body and its response have ended, in
    either order and however often each end repeats, and goes at the second; the
    one end seen so far is all its marker says.
  */
  lemma {:induction false} EntryLivesUntilBothEnd(ts: seq<Tables>, steps: seq<Step>, k: RxidKey, h: Cartridge)
    requires Trace(ts, steps) && UndisturbedRun(ts, steps, k, h)
    requires LifeOf(ts[0], k) == Life(Some(h), false, false)
    ensures LifeOf(ts[|steps|], k) == Expected(h, SomeBodyEnd(steps, k), SomeResponseEnd(steps, k))
    decreases |steps|
  {
    hide Next, LifeOf, Undisturbed, BodyEnds, ResponseEnds;
    if steps != [] {
      var n := |steps| - 1;
      EntryLivesUntilBothEnd(ts[..n + 1], steps[..n], k, h);
      SomeEndSnoc(steps[..n], steps[n], k);
      assert steps == steps[..n] + [steps[n]];
      LifeStep(ts[n], steps[n], ts[n + 1], k, h, SomeBodyEnd(steps[..n], k), SomeResponseEnd(steps[..n], k));
    }
  }

  lemma SomeEndSnoc(before: seq<Step>, last: Step, k: RxidKey)
    ensures SomeBodyEnd(before + [last], k) <==> SomeBodyEnd(before, k) || BodyEnds(last, k)
    ensures SomeResponseEnd(before + [last], k) <==> SomeResponseEnd(before, k) || ResponseEnds(last, k)
  {
    var all := before + [last];
    assert all[|before|] == last && forall i :: 0 <= i < |before| ==> all[i] == before[i];
    if i :| 0 <= i < |before| && BodyEnds(before[i], k) {
      assert BodyEnds(all[i], k);
    }
    if i :| 0 <= i < |before| && ResponseEnds(before[i], k) {
      assert ResponseEnds(all[i], k);
    }
  }

  predicate IsCredit(f: HostFrame, k: RxidKey, direction: Direction) {
    f.frame.kind == Credit && f.frame.id == k.rid && f.direction == Some(direction)
  }

  /** So a response-direction CREDIT reaches the handler exactly until the second end. */
  lemma CreditReachesHandler(ts: seq<Tables>, steps: seq<Step>, k: RxidKey, h: Cartridge,
                             f: HostFrame, ok: bool, now: Time)
    requires Trace(ts, steps) && UndisturbedRun(ts, steps, k, h) && k.rid !in ts[|steps|].outgoing
    requires LifeOf(ts[0], k) == Life(Some(h), false, false)
    requires IsCredit(f, k, Response)
    ensures Continued(ts[|steps|], f, k.xid, ok, now).route
         == if SomeBodyEnd(steps, k) && SomeResponseEnd(steps, k) then None else Some(Route(h, true))
  {
    EntryLivesUntilBothEnd(ts, steps, k, h);
  }

  // ---- Two entries, and whose a frame is -----------------------------------------------------------

  /** The request's entry is neither taken nor replaced by that of another request under its key. */
  predicate EntryKept(step: Step, u: Tables, k: RxidKey) {
    !(step.NewRequest? && step.key == k) && k in u.incoming
  }

  ghost predicate EntryKeptRun(ts: seq<Tables>, steps: seq<Step>, k: RxidKey)
    requires Trace(ts, steps)
  {
    forall i :: 0 <= i < |steps| ==> EntryKept(steps[i], ts[i + 1], k)
  }

  lemma EntryStays(t: Tables, step: Step, u: Tables, k: RxidKey)
    requires Next(t, step, u) && EntryKept(step, u, k)
    ensures k in t.incoming && u.incoming[k] == t.incoming[k]
  {
    hide EndedOutbound, Collected, NotedSeq, Continued, Invoked, Quiet;
    match step
    case Continuation(f, xid, ok, now) => ContinuedEntry(t, f, xid, ok, now, k);
    case Death(idx) =>
    case FlowOut(f, now) =>
      if IsTerminal(f.kind) {
        EndedOutboundView(t, f, k);
        assert ViewOf(u, k).life == LifeOf(u, k) && ViewOf(t, k).life == LifeOf(t, k);
        assert LifeOf(u, k).entry == Some(u.incoming[k]);
      } else {
        QuietEntry(t, step, u, k);
      }
    case _ => QuietEntry(t, step, u, k);
  }

  lemma ContinuedEntry(t: Tables, f: HostFrame, xid: MessageId, ok: bool, now: Time, k: RxidKey)
    requires k in Continued(t, f, xid, ok, now).tables.incoming
    ensures k in t.incoming && Continued(t, f, xid, ok, now).tables.incoming[k] == t.incoming[k]
  {
    ContinuedView(t, f, xid, ok, now, k);
    var u := Continued(t, f, xid, ok, now).tables;
    hide Continued;
    assert ViewOf(u, k).life == LifeOf(u, k) && ViewOf(t, k).life == LifeOf(t, k);
    assert LifeOf(u, k).entry == Some(u.incoming[k]);
  }

  lemma QuietEntry(t: Tables, step: Step, u: Tables, k: RxidKey)
    requires Next(t, step, u) && !step.Continuation? && !step.Death? && !(step.FlowOut? && IsTerminal(step.out.kind))
    requires EntryKept(step, u, k)
    ensures k in t.incoming && u.incoming[k] == t.incoming[k]
  {
    hide Next;
    QuietView(t, step, u, k);
  }

  lemma {:induction false} EntryStaysRun(ts: seq<Tables>, steps: seq<Step>, k: RxidKey, h: Cartridge, i: nat)
    requires Trace(ts, steps) && EntryKeptRun(ts, steps, k) && i <= |steps|
    requires k in ts[0].incoming && ts[0].incoming[k] == h
    ensures k in ts[i].incoming && ts[i].incoming[k] == h
  {
    hide Next;
    if i > 0 {
      EntryStaysRun(ts, steps, k, h, i - 1);
      EntryStays(ts[i - 1], steps[i - 1], ts[i], k);
    }
  }

  /**
    A grant for what a handler answers reaches the handler at every moment while its
    entry is there, whatever the requester's entry and the marks say.
  */
  lemma ResponseCreditReachesHandler(ts: seq<Tables>, steps: seq<Step>, k: RxidKey, h: Cartridge, i: nat,
                                     f: HostFrame, ok: bool, now: Time)
    requires Trace(ts, steps) && EntryKeptRun(ts, steps, k) && i <= |steps|
    requires k in ts[0].incoming && ts[0].incoming[k] == h && IsCredit(f, k, Response)
    ensures Continued(ts[i], f, k.xid, ok, now).route == Some(Route(h, true))
  {
    EntryStaysRun(ts, steps, k, h, i);
    hide Next, EntryKept;
  }

  /**
    A request nobody here waits for: every continuation of it, CREDIT either way and the
    frames behind its END among them, reaches its handler while the entry is there.
  */
  lemma AloneReachesHandler(ts: seq<Tables>, steps: seq<Step>, k: RxidKey, h: Cartridge, i: nat,
                            f: HostFrame, ok: bool, now: Time)
    requires Trace(ts, steps) && EntryKeptRun(ts, steps, k) && i <= |steps| && k.rid !in ts[i].outgoing
    requires k in ts[0].incoming && ts[0].incoming[k] == h
    requires IsContinuation(f) && f.frame.id == k.rid && (f.frame.kind == Credit ==> f.direction.Some?)
    ensures Continued(ts[i], f, k.xid, ok, now).route == Some(Route(h, true))
  {
    EntryStaysRun(ts, steps, k, h, i);
    hide Next, EntryKept;
  }

  /** A CREDIT that names no direction goes nowhere and changes nothing. */
  lemma UndirectedCreditIsDropped(t: Tables, f: HostFrame, xid: MessageId, ok: bool, now: Time)
    requires f.frame.kind == Credit && f.direction.None?
    ensures Continued(t, f, xid, ok, now) == Handled(t, None, None)
  {
  }

  // ---- Self-loops -----------------------------------------------------------------------------------

  /** The request body is over: marked so, or the whole entry gone. */
  predicate BodyOver(t: Tables, k: RxidKey) {
    k in t.bodyDone || k !in t.incoming
  }

  /** The handler's entry stays and no terminal under its key comes from the relay. */
  predicate HandlerKept(step: Step, u: Tables, k: RxidKey) {
    !(step.NewRequest? && step.key == k) && !BodyEnds(step, k) && k in u.incoming
  }

  ghost predicate HandlerKeptRun(ts: seq<Tables>, steps: seq<Step>, k: RxidKey)
    requires Trace(ts, steps)
  {
    forall i :: 0 <= i < |steps| ==> HandlerKept(steps[i], ts[i + 1], k)
  }

  lemma HandlerStays(t: Tables, step: Step, u: Tables, k: RxidKey, h: Cartridge)
    requires Next(t, step, u) && HandlerKept(step, u, k) && k in t.incoming && t.incoming[k] == h && k !in t.bodyDone
    ensures k in u.incoming && u.incoming[k] == h && k !in u.bodyDone
  {
    hide EndedOutbound, Collected, NotedSeq, Continued, Invoked, Quiet;
    match step
    case Continuation(f, xid, ok, now) => ContinuationStays(t, f, xid, ok, now, k);
    case Death(idx) =>
    case FlowOut(f, now) =>
      if IsTerminal(f.kind) {
        EndedOutboundView(t, f, k);
        assert LifeOf(u, k).entry.Some? && ViewOf(u, k).life == LifeOf(u, k) && ViewOf(t, k).life == LifeOf(t, k);
      } else {
        QuietStays(t, step, u, k);
      }
    case _ => QuietStays(t, step, u, k);
  }

  lemma ContinuationStays(t: Tables, f: HostFrame, xid: MessageId, ok: bool, now: Time, k: RxidKey)
    requires k in t.incoming && k !in t.bodyDone && !(IsTerminal(f.frame.kind) && KeyOf(f, xid) == k)
    ensures var u := Continued(t, f, xid, ok, now).tables;
            k in u.incoming ==> u.incoming[k] == t.incoming[k] && k !in u.bodyDone
  {
    ContinuedView(t, f, xid, ok, now, k);
    var u := Continued(t, f, xid, ok, now).tables;
    hide Continued;
    assert ViewOf(u, k).life == LifeOf(u, k) && ViewOf(t, k).life == LifeOf(t, k);
    assert k in u.incoming ==> LifeOf(u, k).entry == Some(u.incoming[k]);
  }

  lemma QuietStays(t: Tables, step: Step, u: Tables, k: RxidKey)
    requires Next(t, step, u) && !step.Continuation? && !step.Death? && !(step.FlowOut? && IsTerminal(step.out.kind))
    requires !(step.NewRequest? && step.key == k) && k !in t.bodyDone && k in u.incoming
    ensures k in t.incoming && u.incoming[k] == t.incoming[k] && k !in u.bodyDone
  {
    hide Next;
    QuietView(t, step, u, k);
  }

  lemma {:induction false} HandlerStaysRun(ts: seq<Tables>, steps: seq<Step>, k: RxidKey, h: Cartridge, i: nat)
    requires Trace(ts, steps) && HandlerKeptRun(ts, steps, k) && i <= |steps|
    requires k in ts[0].incoming && ts[0].incoming[k] == h && k !in ts[0].bodyDone
    ensures k in ts[i].incoming && ts[i].incoming[k] == h && k !in ts[i].bodyDone
  {
    hide Next, HandlerKept;
    if i > 0 {
      HandlerStaysRun(ts, steps, k, h, i - 1);
      HandlerStays(ts[i - 1], steps[i - 1], ts[i], k, h);
    }
  }

  /**
    A self-loop, up to the first terminal under its key to come from the relay: every
    data or terminal frame goes to the handler, at every moment and whoever wrote it,
    so what the handler answers by then comes back to the handler itself.
  */
  lemma SelfLoopStaysWithHandler(ts: seq<Tables>, steps: seq<Step>, k: RxidKey, h: Cartridge, i: nat,
                                 f: HostFrame, ok: bool, now: Time)
    requires Trace(ts, steps) && HandlerKeptRun(ts, steps, k) && i <= |steps|
    requires k in ts[0].incoming && ts[0].incoming[k] == h && k !in ts[0].bodyDone
    requires IsContinuation(f) && f.frame.kind != Credit && f.frame.id == k.rid
    ensures Continued(ts[i], f, k.xid, ok, now).route == Some(Route(h, true))
  {
    hide Next, HandlerKept, Continued;
    HandlerStaysRun(ts, steps, k, h, i);
    ToHandler(ts[i], f, k, h, ok, now);
  }

  lemma ToHandler(t: Tables, f: HostFrame, k: RxidKey, h: Cartridge, ok: bool, now: Time)
    requires k in t.incoming && t.incoming[k] == h && k !in t.bodyDone
    requires f.frame.kind != Credit && f.frame.id == k.rid
    ensures Continued(t, f, k.xid, ok, now).route == Some(Route(h, true))
  {
  }

  /** And that terminal, whoever wrote it, is taken for the end of the body. */
  lemma FirstEndDivides(t: Tables, f: HostFrame, xid: MessageId, now: Time, k: RxidKey)
    requires k in t.incoming && IsTerminal(f.frame.kind) && KeyOf(f, xid) == k && k !in t.bodyDone
    ensures BodyOver(Continued(t, f, xid, true, now).tables, k)
  {
    ContinuedView(t, f, xid, true, now, k);
    var u := Continued(t, f, xid, true, now).tables;
    assert RouteOf(t, f, k) == Some(Route(t.incoming[k], true));
    hide Continued;
    assert ViewOf(u, k).life == LifeOf(u, k) && ViewOf(t, k).life == LifeOf(t, k);
  }

  function EndOf(k: RxidKey, num: nat): Frame {
    Frame(End, k.rid, Some(k.xid), num, 0)
  }

  /**
    So a handler that answers before it has had the whole body, on a loop that brings
    its END back before the body's: the handler is given its own END, and the
    requester the END of the body it wrote itself; with both entries gone, nothing of
    the request is left to route.
  */
  lemma EndsCross(t: Tables, k: RxidKey, h: Cartridge, r: Cartridge, answered: nat, wrote: nat, now: Time)
    requires k in t.incoming && t.incoming[k] == h && k.rid in t.outgoing && t.outgoing[k.rid] == r
    requires k !in t.bodyDone && k !in t.responseDone
    ensures var passed := EndedOutbound(t, EndOf(k, answered));
            var back := Continued(passed, HostFrame(EndOf(k, answered), None, None), k.xid, true, now);
            var body := Continued(back.tables, HostFrame(EndOf(k, wrote), None, None), k.xid, true, now);
            Next(t, FlowOut(EndOf(k, answered), now), passed)
            && back.route == Some(Route(h, true)) && body.route == Some(Route(r, false))
            && k !in body.tables.incoming && k.rid !in body.tables.outgoing
  {
  }

  lemma BodyStaysOver(t: Tables, step: Step, u: Tables, k: RxidKey)
    requires Next(t, step, u) && BodyOver(t, k) && !(step.NewRequest? && step.key == k)
    ensures BodyOver(u, k)
  {
    hide Continued, RouteOf, EndedOutbound, Collected, NotedSeq, Invoked, Admitted;
    match step
    case Continuation(f, xid, ok, now) => ContinuedView(t, f, xid, ok, now, k);
    case Death(idx) =>
    case FlowOut(f, now) =>
      if IsTerminal(f.kind) {
        EndedOutboundView(t, f, k);
      } else {
        QuietView(t, step, u, k);
      }
    case _ => QuietView(t, step, u, k);
  }

  /** The requester's entry is not taken: no terminal and no failed write under its id, no death, reuse or eviction. */
  predicate RequesterKept(t: Tables, step: Step, u: Tables, rid: MessageId, r: Cartridge) {
    match step
    case NewRequest(_, _, _, _) => rid in u.outgoing
    case Continuation(f, _, ok, _) => f.frame.id == rid ==> ok && !IsTerminal(f.frame.kind)
    case Unserved(_) => true
    case LogIn(_, _) => true
    case CloseStreamIn(_, _) => true
    case CancelIn(_, _, _, _) => true
    case PeerCall(_, f, _, _) => f.frame.id != rid && rid in u.outgoing
    case FlowOut(out, _) => !IsTerminal(out.kind) ==> rid in u.outgoing
    case Death(idx) => idx != r
  }

  lemma RequesterStays(t: Tables, step: Step, u: Tables, k: RxidKey, r: Cartridge)
    requires Next(t, step, u) && k.rid in t.outgoing && t.outgoing[k.rid] == r && RequesterKept(t, step, u, k.rid, r)
    ensures k.rid in u.outgoing && u.outgoing[k.rid] == r
  {
    match step
    case Continuation(f, xid, ok, now) =>
      ContinuedView(t, f, xid, ok, now, k);
      hide Continued, RouteOf;
      assert ViewOf(u, k).caller == ViewOf(t, k).caller;
    case Death(idx) =>
    case FlowOut(f, now) =>
      hide EndedOutbound, Collected, NotedSeq;
      if IsTerminal(f.kind) {
        EndedOutboundView(t, f, k);
        assert ViewOf(u, k).caller == ViewOf(t, k).caller;
      } else {
        QuietRequester(t, step, u, k, r);
      }
    case _ =>
      QuietRequester(t, step, u, k, r);
  }

  lemma QuietRequester(t: Tables, step: Step, u: Tables, k: RxidKey, r: Cartridge)
    requires Next(t, step, u) && !step.Continuation? && !step.Death? && !(step.FlowOut? && IsTerminal(step.out.kind))
    requires k.rid in t.outgoing && t.outgoing[k.rid] == r && RequesterKept(t, step, u, k.rid, r)
    ensures k.rid in u.outgoing && u.outgoing[k.rid] == r
  {
    if Touches(step) {
      OnlyTouches(t, step, u);
    }
    hide Next;
    QuietView(t, step, u, k);
  }

  ghost predicate RequesterKeptRun(ts: seq<Tables>, steps: seq<Step>, k: RxidKey, r: Cartridge)
    requires Trace(ts, steps)
  {
    forall i :: 0 <= i < |steps| ==>
      RequesterKept(ts[i], steps[i], ts[i + 1], k.rid, r) && !(steps[i].NewRequest? && steps[i].key == k)
  }

  /**
    From the body's END on, at every moment and whatever happens to the handler's
    entry (its own terminal passing out, its death, its eviction), every further
    data or terminal frame of the self-loop goes to the requester, until the
    requester's own entry is released.
  */
  lemma SelfLoopReachesRequester(ts: seq<Tables>, steps: seq<Step>, k: RxidKey, r: Cartridge, i: nat,
                                 f: HostFrame, ok: bool, now: Time)
    requires Trace(ts, steps) && RequesterKeptRun(ts, steps, k, r) && i <= |steps|
    requires BodyOver(ts[0], k) && k.rid in ts[0].outgoing && ts[0].outgoing[k.rid] == r
    requires IsContinuation(f) && f.frame.kind != Credit && f.frame.id == k.rid
    ensures Continued(ts[i], f, k.xid, ok, now).route == Some(Route(r, false))
  {
    hide Next, RequesterKept;
    BodyStaysOverRun(ts, steps, k, i);
    RequesterStaysRun(ts, steps, k, r, i);
  }

  lemma {:induction false} BodyStaysOverRun(ts: seq<Tables>, steps: seq<Step>, k: RxidKey, i: nat)
    requires Trace(ts, steps) && i <= |steps| && BodyOver(ts[0], k)
    requires forall j :: 0 <= j < |steps| ==> !(steps[j].NewRequest? && steps[j].key == k)
    ensures BodyOver(ts[i], k)
  {
    hide Next, BodyOver;
    if i > 0 {
      BodyStaysOverRun(ts, steps, k, i - 1);
      BodyStaysOver(ts[i - 1], steps[i - 1], ts[i], k);
    }
  }

  lemma {:induction false} RequesterStaysRun(ts: seq<Tables>, steps: seq<Step>, k: RxidKey, r: Cartridge, i: nat)
    requires Trace(ts, steps) && i <= |steps| && k.rid in ts[0].outgoing && ts[0].outgoing[k.rid] == r
    requires forall j :: 0 <= j < |steps| ==> RequesterKept(ts[j], steps[j], ts[j + 1], k.rid, r)
    ensures k.rid in ts[i].outgoing && ts[i].outgoing[k.rid] == r
  {
    hide Next, RequesterKept;
    if i > 0 {
      RequesterStaysRun(ts, steps, k, r, i - 1);
      RequesterStays(ts[i - 1], steps[i - 1], ts[i], k, r);
    }
  }

  /**
    A grant for what a requester sends reaches the requester at every moment while its
    entry is there, whatever the handler's entry and the marks say; and so does one for
    the answer, once the handler's entry is gone.
  */
  lemma RequestCreditReachesRequester(ts: seq<Tables>, steps: seq<Step>, k: RxidKey, r: Cartridge, i: nat,
                                      f: HostFrame, ok: bool, now: Time)
    requires Trace(ts, steps) && i <= |steps| && k.rid in ts[0].outgoing && ts[0].outgoing[k.rid] == r
    requires forall j :: 0 <= j < |steps| ==> RequesterKept(ts[j], steps[j], ts[j + 1], k.rid, r)
    requires IsCredit(f, k, Request) || (IsCredit(f, k, Response) && k !in ts[i].incoming)
    ensures Continued(ts[i], f, k.xid, ok, now).route == Some(Route(r, false))
  {
    hide Next, RequesterKept;
    RequesterStaysRun(ts, steps, k, r, i);
  }
}
