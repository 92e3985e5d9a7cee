/**
  Process generations and the sweep that follows a cartridge's death, with what
  becomes of the ERR frames it writes at the relay's reorder buffer.
*/
module HostDeaths {
  import opened Frames
  import opened FlowOrdering
  import opened FlowDelivery
  import opened RoutingTables
  import opened RoutingRuns
  import opened WireDelivery
  import opened WriterGate
  import opened Wrappers

  // ---- The sweep -----------------------------------------------------------------------------------

  /** Nothing of the dead cartridge is left, and nothing of another has moved. */
  lemma SweepIsExact(t: Tables, idx: Cartridge)
    ensures var u := Swept(t, idx);
            (forall k :: k in u.incoming <==> k in t.incoming && t.incoming[k] != idx)
            && (forall r :: r in u.outgoing <==> r in t.outgoing && t.outgoing[r] != idx)
            && (forall k :: k in u.incoming ==>
                  u.incoming[k] == t.incoming[k] && LifeOf(u, k) == LifeOf(t, k)
                  && (k in u.peers <==> k in t.peers) && (k in u.peers ==> u.peers[k] == t.peers[k]))
            && (forall r :: r in u.outgoing ==> u.outgoing[r] == t.outgoing[r])
            && (forall flow :: flow !in OwnFlows(t, idx) ==>
                  (flow in u.maxSeq <==> flow in t.maxSeq)
                  && (flow in u.maxSeq ==> u.maxSeq[flow] == t.maxSeq[flow]))
  {
  }

  lemma {:induction false} OutgoingFlows(rids: set<MessageId>)
    ensures |set r | r in rids :: FlowKey(r, None)| == |rids|
    decreases |rids|
  {
    if rids != {} {
      var r :| r in rids;
      OutgoingFlows(rids - {r});
      assert (set x | x in rids :: FlowKey(x, None))
          == (set x | x in rids - {r} :: FlowKey(x, None)) + {FlowKey(r, None)};
    }
  }

  lemma {:induction false} IncomingFlows(keys: set<RxidKey>)
    ensures |set k | k in keys :: FlowKey(k.rid, Some(k.xid))| == |keys|
    decreases |keys|
  {
    if keys != {} {
      var k :| k in keys;
      IncomingFlows(keys - {k});
      assert (set x | x in keys :: FlowKey(x.rid, Some(x.xid)))
          == (set x | x in keys - {k} :: FlowKey(x.rid, Some(x.xid))) + {FlowKey(k.rid, Some(k.xid))};
    }
  }

  lemma FlowCount(t: Tables, idx: Cartridge)
    ensures |OwnFlows(t, idx)| == |OwnOutgoing(t, idx)| + |OwnIncoming(t, idx)|
  {
    var outFlows := set r | r in OwnOutgoing(t, idx) :: FlowKey(r, None);
    var inFlows := set k | k in OwnIncoming(t, idx) :: FlowKey(k.rid, Some(k.xid));
    OutgoingFlows(OwnOutgoing(t, idx));
    IncomingFlows(OwnIncoming(t, idx));
    assert outFlows !! inFlows;
    assert OwnFlows(t, idx) == outFlows + inFlows;
  }

  lemma OwnIncomingFlow(t: Tables, idx: Cartridge, k: RxidKey)
    ensures FlowKey(k.rid, Some(k.xid)) in OwnFlows(t, idx) <==> k in OwnIncoming(t, idx)
  {
    if FlowKey(k.rid, Some(k.xid)) in OwnFlows(t, idx) {
      var j :| j in OwnIncoming(t, idx) && FlowKey(j.rid, Some(j.xid)) == FlowKey(k.rid, Some(k.xid));
      assert j == k;
    }
  }

  lemma OwnOutgoingFlow(t: Tables, idx: Cartridge, r: MessageId)
    ensures FlowKey(r, None) in OwnFlows(t, idx) <==> r in OwnOutgoing(t, idx)
  {
  }

  lemma ErrCount(t: Tables, idx: Cartridge)
    ensures var u := Swept(t, idx);
            |SweepErrs(t, idx)| == (|t.incoming| - |u.incoming|) + (|t.outgoing| - |u.outgoing|)
  {
    FlowCount(t, idx);
    assert SweepErrs(t, idx).Keys == OwnFlows(t, idx);
    assert Swept(t, idx).incoming.Keys == t.incoming.Keys - OwnIncoming(t, idx);
    assert Swept(t, idx).outgoing.Keys == t.outgoing.Keys - OwnOutgoing(t, idx);
    hide OwnFlows;
  }

  /** Exactly one ERR per removed entry, each one past its flow's last recorded number, or 1 when none was. */
  lemma OneErrPerEntry(t: Tables, idx: Cartridge)
    ensures var (u, errs) := (Swept(t, idx), SweepErrs(t, idx));
            |errs| == (|t.incoming| - |u.incoming|) + (|t.outgoing| - |u.outgoing|)
            && (forall k :: k in t.incoming ==>
                  (FlowKey(k.rid, Some(k.xid)) in errs <==> k !in u.incoming))
            && (forall r :: r in t.outgoing ==> (FlowKey(r, None) in errs <==> r !in u.outgoing))
            && (forall flow :: flow in errs ==>
                  errs[flow] == if flow in t.maxSeq then t.maxSeq[flow] + 1 else 1)
  {
    ErrCount(t, idx);
    hide Swept, SweepErrs;
    forall k | k in t.incoming
      ensures FlowKey(k.rid, Some(k.xid)) in SweepErrs(t, idx) <==> k !in Swept(t, idx).incoming
    {
      OwedIncoming(t, idx, k);
    }
    forall r | r in t.outgoing
      ensures FlowKey(r, None) in SweepErrs(t, idx) <==> r !in Swept(t, idx).outgoing
    {
      OwedOutgoing(t, idx, r);
    }
    forall flow | flow in SweepErrs(t, idx)
      ensures SweepErrs(t, idx)[flow] == if flow in t.maxSeq then t.maxSeq[flow] + 1 else 1
    {
      OwedNumber(t, idx, flow);
    }
  }

  lemma OwedIncoming(t: Tables, idx: Cartridge, k: RxidKey)
    requires k in t.incoming
    ensures FlowKey(k.rid, Some(k.xid)) in SweepErrs(t, idx) <==> k !in Swept(t, idx).incoming
  {
    OwnIncomingFlow(t, idx, k);
    hide OwnFlows;
  }

  lemma OwedOutgoing(t: Tables, idx: Cartridge, r: MessageId)
    requires r in t.outgoing
    ensures FlowKey(r, None) in SweepErrs(t, idx) <==> r !in Swept(t, idx).outgoing
  {
    OwnOutgoingFlow(t, idx, r);
    hide OwnFlows;
  }

  lemma OwedNumber(t: Tables, idx: Cartridge, flow: FlowKey)
    requires flow in SweepErrs(t, idx)
    ensures SweepErrs(t, idx)[flow] == if flow in t.maxSeq then t.maxSeq[flow] + 1 else 1
  {
    hide OwnFlows;
  }

  // ---- Generations ---------------------------------------------------------------------------------

  datatype Slot = Slot(generation: nat, up: bool)

  datatype Process = Process(idx: Cartridge, generation: nat)

  // `errs` are the ERR frames the host has written for dead cartridges, in order; `born` is every process ever spawned.
  datatype Host = Host(tables: Tables, slots: seq<Slot>, errs: seq<map<FlowKey, nat>>, born: set<Process>)

  datatype Event =
    | Spawned(idx: Cartridge)
    | FromRelay(step: Step)
    | FromCartridge(idx: Cartridge, generation: nat, step: Step)
    | Died(idx: Cartridge, generation: nat, appExit: bool)
    | Retired(idx: Cartridge, expired: bool)

  predicate Current(h: Host, idx: Cartridge, generation: nat) {
    idx < |h.slots| && h.slots[idx].generation == generation
  }

  function Renewed(h: Host, idx: Cartridge, up: bool): seq<Slot>
    requires idx < |h.slots|
  {
    h.slots[idx := Slot(h.slots[idx].generation + 1, up)]
  }

  /** What a death event does: nothing unless it is the running process's own. */
  function Buried(h: Host, idx: Cartridge, generation: nat, appExit: bool): Host {
    if !Current(h, idx, generation) || !h.slots[idx].up then h
    else
      Host(Swept(h.tables, idx), Renewed(h, idx, false),
           if appExit then h.errs else h.errs + [SweepErrs(h.tables, idx)], h.born)
  }

  predicate Up(h: Host, idx: Cartridge) {
    idx < |h.slots| && h.slots[idx].up
  }

  /** Requests or peer calls of the cartridge are not over. */
  ghost predicate Outstanding(t: Tables, idx: Cartridge) {
    (exists k :: k in t.incoming && t.incoming[k] == idx) || (exists r :: r in t.outgoing && t.outgoing[r] == idx)
  }

  /**
    A REQ goes to a running cartridge, spawned for it if need be; frames and deaths
    are those of processes once spawned.  A cartridge that has left the roster is killed
    once nothing of it is outstanding, or once its drain has expired: it is no longer
    running, but its generation and the tables stay as they are.
  */
  ghost predicate HostNext(h: Host, e: Event, after: Host) {
    match e
    case Spawned(idx) =>
      idx < |h.slots| && !h.slots[idx].up
      && after == h.(slots := Renewed(h, idx, true), born := h.born + {Process(idx, h.slots[idx].generation + 1)})
    case FromRelay(step) =>
      (step.NewRequest? || step.Continuation? || Touches(step)) && (step.NewRequest? && step.ok ==> Up(h, step.idx))
      && after == h.(tables := after.tables) && Next(h.tables, step, after.tables)
    case FromCartridge(idx, generation, step) =>
      Process(idx, generation) in h.born && (step.PeerCall? || step.FlowOut?) && (step.PeerCall? ==> step.idx == idx)
      && if Current(h, idx, generation)
         then after == h.(tables := after.tables) && Next(h.tables, step, after.tables)
         else after == h
    case Died(idx, generation, appExit) =>
      Process(idx, generation) in h.born && after == Buried(h, idx, generation, appExit)
    case Retired(idx, expired) =>
      Up(h, idx) && (expired || !Outstanding(h.tables, idx))
      && after == h.(slots := h.slots[idx := h.slots[idx].(up := false)])
  }

  ghost predicate HostTrace(hs: seq<Host>, es: seq<Event>) {
    |hs| == |es| + 1 && forall i :: 0 <= i < |es| ==> HostNext(hs[i], es[i], hs[i + 1])
  }

  /** A generation never goes back, and a spawn and a death each move it on. */
  lemma GenerationsRise(h: Host, e: Event, after: Host, idx: Cartridge)
    requires HostNext(h, e, after) && idx < |h.slots|
    ensures |after.slots| == |h.slots| && after.slots[idx].generation >= h.slots[idx].generation
    ensures e.Spawned? && e.idx == idx ==> after.slots[idx].generation > h.slots[idx].generation
    ensures e.Died? && e.idx == idx && after != h ==> after.slots[idx].generation > h.slots[idx].generation
  {
  }

  lemma {:induction false} StaysOld(hs: seq<Host>, es: seq<Event>, i: nat, j: nat, idx: Cartridge, generation: nat)
    requires HostTrace(hs, es) && i <= j <= |es|
    requires idx < |hs[i].slots| && hs[i].slots[idx].generation > generation
    ensures idx < |hs[j].slots| && hs[j].slots[idx].generation > generation
    decreases j
  {
    if i < j {
      StaysOld(hs, es, i, j - 1, idx, generation);
      GenerationsRise(hs[j - 1], es[j - 1], hs[j], idx);
    }
  }

  /**
    Once a process has been buried or replaced, no frame and no death event of it
    changes anything, however late it comes.
  */
  lemma OldChangesNothing(hs: seq<Host>, es: seq<Event>, i: nat, j: nat)
    requires HostTrace(hs, es) && i <= j < |es|
    requires es[j].FromCartridge? || es[j].Died?
    requires es[j].idx < |hs[i].slots| && hs[i].slots[es[j].idx].generation > es[j].generation
    ensures hs[j + 1] == hs[j]
  {
    StaysOld(hs, es, i, j, es[j].idx, es[j].generation);
  }

  /** So a process is buried at most once: a second death event of it finds it gone. */
  lemma BuriedOnce(hs: seq<Host>, es: seq<Event>, i: nat, j: nat)
    requires HostTrace(hs, es) && i < j < |es| && es[i].Died? && es[j].Died?
    requires es[i].idx == es[j].idx && es[i].generation == es[j].generation && hs[i + 1] != hs[i]
    ensures hs[j + 1] == hs[j]
  {
    GenerationsRise(hs[i], es[i], hs[i + 1], es[i].idx);
    OldChangesNothing(hs, es, i + 1, j);
  }

  /**
    The death of a running process, handled: everything of its cartridge is gone from the
    tables and nothing else is, and unless the host had asked it to exit one ERR is
    written for each of its entries.
  */
  lemma DeathIsAnswered(h: Host, e: Event, after: Host)
    requires HostNext(h, e, after) && e.Died? && Current(h, e.idx, e.generation) && Up(h, e.idx)
    ensures !Up(after, e.idx) && forall i :: 0 <= i < |h.slots| && i != e.idx ==> after.slots[i] == h.slots[i]
    ensures forall k :: k in after.tables.incoming <==> k in h.tables.incoming && h.tables.incoming[k] != e.idx
    ensures forall r :: r in after.tables.outgoing <==> r in h.tables.outgoing && h.tables.outgoing[r] != e.idx
    ensures if e.appExit then after.errs == h.errs
            else |after.errs| == |h.errs| + 1 && after.errs[..|h.errs|] == h.errs
                 && (var errs := after.errs[|h.errs|];
                     (forall k :: k in h.tables.incoming ==>
                        (FlowKey(k.rid, Some(k.xid)) in errs <==> h.tables.incoming[k] == e.idx))
                     && (forall r :: r in h.tables.outgoing ==>
                           (FlowKey(r, None) in errs <==> h.tables.outgoing[r] == e.idx)))
  {
    hide Swept, SweepErrs, OwnFlows, Next;
    var (t, idx) := (h.tables, e.idx);
    SweptTables(t, idx);
    SweptErrs(t, idx);
    assert after.tables == Swept(t, idx);
    if !e.appExit {
      assert after.errs == h.errs + [SweepErrs(t, idx)];
      assert after.errs[..|h.errs|] == h.errs && after.errs[|h.errs|] == SweepErrs(t, idx);
    }
  }

  lemma SweptTables(t: Tables, idx: Cartridge)
    ensures forall k :: k in Swept(t, idx).incoming <==> k in t.incoming && t.incoming[k] != idx
    ensures forall r :: r in Swept(t, idx).outgoing <==> r in t.outgoing && t.outgoing[r] != idx
  {
    SweepIsExact(t, idx);
    hide Swept;
  }

  lemma SweptErrs(t: Tables, idx: Cartridge)
    ensures forall k :: k in t.incoming ==>
              (FlowKey(k.rid, Some(k.xid)) in SweepErrs(t, idx) <==> t.incoming[k] == idx)
    ensures forall r :: r in t.outgoing ==> (FlowKey(r, None) in SweepErrs(t, idx) <==> t.outgoing[r] == idx)
  {
    SweptTables(t, idx);
    OneErrPerEntry(t, idx);
    hide Swept, SweepErrs;
  }

  // ---- No entry outlives its cartridge ---------------------------------------------------------------

  /** Where an entry can come from: it was there, or the step is the request or the call it stands for. */
  predicate EntryFrom(t: Tables, step: Step, u: Tables, k: RxidKey) {
    k in u.incoming ==>
      (k in t.incoming && u.incoming[k] == t.incoming[k])
      || (step.NewRequest? && step.ok && step.key == k && u.incoming[k] == step.idx)
  }

  predicate CallFrom(t: Tables, step: Step, u: Tables, rid: MessageId) {
    rid in u.outgoing ==>
      (rid in t.outgoing && u.outgoing[rid] == t.outgoing[rid])
      || (step.PeerCall? && step.f.frame.id == rid && u.outgoing[rid] == step.idx)
  }

  lemma RequestFrom(t: Tables, step: Step, u: Tables, k: RxidKey)
    requires Next(t, step, u) && step.NewRequest?
    ensures EntryFrom(t, step, u, k)
  {
    hide Collected;
    var r := Recorded(t, step.key, step.idx, step.now);
    var m :| Collected(r, m) && u == if step.ok then m else Forgotten(m, step.key);
    CollectedIncoming(r, m, k);
  }

  lemma CalledFrom(t: Tables, idx: Cartridge, f: HostFrame, parent: Option<RxidKey>, now: Time, u: Tables)
    requires Collected(Invoked(t, idx, f, parent, now), u)
    ensures f.frame.id in u.outgoing ==> u.outgoing[f.frame.id] == idx
  {
    CollectedOutgoing(Invoked(t, idx, f, parent, now), u, f.frame.id);
    hide Collected;
  }

  lemma QuietFrom(t: Tables, step: Step, u: Tables, k: RxidKey)
    requires Next(t, step, u) && !step.Continuation? && !step.Death? && !(step.FlowOut? && IsTerminal(step.out.kind))
    ensures EntryFrom(t, step, u, k) && CallFrom(t, step, u, k.rid)
  {
    hide Collected, Invoked;
    if step.NewRequest? {
      RequestFrom(t, step, u, k);
    }
    if step.PeerCall? {
      CalledFrom(t, step.idx, step.f, step.parent, step.now, u);
    }
    hide Next;
    QuietView(t, step, u, k);
  }

  /** Of one request and the calls under its id, nothing is there that was not there before. */
  predicate NoneNew(t: Tables, u: Tables, k: RxidKey) {
    (k in u.incoming ==> k in t.incoming && u.incoming[k] == t.incoming[k])
    && (k.rid in u.outgoing ==> k.rid in t.outgoing && u.outgoing[k.rid] == t.outgoing[k.rid])
  }

  lemma ViewShrinks(t: Tables, u: Tables, k: RxidKey)
    requires ViewOf(u, k).life.entry.Some? ==> ViewOf(u, k).life.entry == ViewOf(t, k).life.entry
    requires ViewOf(u, k).caller.Some? ==> ViewOf(u, k).caller == ViewOf(t, k).caller
    ensures NoneNew(t, u, k)
  {
  }

  lemma ContinuedFrom(t: Tables, f: HostFrame, xid: MessageId, ok: bool, now: Time, k: RxidKey)
    ensures NoneNew(t, Continued(t, f, xid, ok, now).tables, k)
  {
    hide Touch, Failed, EndedInbound, RouteOf, NoneNew;
    var key := KeyOf(f, xid);
    if RouteOf(t, f, key).Some? {
      var via := RouteOf(t, f, key).value.viaIncoming;
      var touched := Touch(t, key, via, now);
      TouchView(t, key, via, now, k);
      FailedView(touched, key, k);
      EndedInboundView(touched, key, via, k);
    }
    ViewShrinks(t, Continued(t, f, xid, ok, now).tables, k);
  }

  lemma EndedFrom(t: Tables, f: Frame, k: RxidKey)
    ensures NoneNew(t, EndedOutbound(t, f), k)
  {
    EndedOutboundView(t, f, k);
    hide EndedOutbound, NoneNew;
    ViewShrinks(t, EndedOutbound(t, f), k);
  }

  lemma StepFrom(t: Tables, step: Step, u: Tables, k: RxidKey)
    requires Next(t, step, u)
    ensures EntryFrom(t, step, u, k) && CallFrom(t, step, u, k.rid)
  {
    hide Continued, EndedOutbound, Collected, NotedSeq, Invoked, Admitted;
    match step
    case Continuation(f, xid, ok, now) => ContinuedFrom(t, f, xid, ok, now, k);
    case Death(idx) => SweepIsExact(t, idx);
    case FlowOut(f, now) =>
      if IsTerminal(f.kind) {
        EndedFrom(t, f, k);
      } else {
        QuietFrom(t, step, u, k);
      }
    case _ => QuietFrom(t, step, u, k);
  }

  /** Every entry is a running cartridge's. */
  ghost predicate AllUp(h: Host) {
    (forall k :: k in h.tables.incoming ==> Up(h, h.tables.incoming[k]))
    && (forall r :: r in h.tables.outgoing ==> Up(h, h.tables.outgoing[r]))
  }

  lemma TablesUp(h: Host, step: Step, after: Host)
    requires AllUp(h) && after == h.(tables := after.tables) && Next(h.tables, step, after.tables)
    requires step.NewRequest? && step.ok ==> Up(h, step.idx)
    requires step.PeerCall? && step.f.frame.id in after.tables.outgoing ==> Up(h, step.idx)
    ensures AllUp(after)
  {
    hide Next;
    forall k | k in after.tables.incoming
      ensures Up(after, after.tables.incoming[k])
    {
      StepFrom(h.tables, step, after.tables, k);
    }
    forall r | r in after.tables.outgoing
      ensures Up(after, after.tables.outgoing[r])
    {
      StepFrom(h.tables, step, after.tables, RxidKey(0, r));
    }
  }

  lemma DeathUp(h: Host, idx: Cartridge, generation: nat, appExit: bool)
    requires AllUp(h)
    ensures AllUp(Buried(h, idx, generation, appExit))
  {
    SweepIsExact(h.tables, idx);
    hide Swept, SweepErrs;
  }

  /**
    The two ways to leave an entry without its cartridge: a drain cut off with an entry
    outstanding, and a peer call that a retired process had written before it was killed.
  */
  ghost predicate Strands(h: Host, e: Event, after: Host) {
    match e
    case Retired(idx, _) => Outstanding(h.tables, idx)
    case FromCartridge(idx, generation, step) =>
      Current(h, idx, generation) && !Up(h, idx) && step.PeerCall? && step.f.frame.id in after.tables.outgoing
    case _ => false
  }

  lemma UpStep(h: Host, e: Event, after: Host)
    requires HostNext(h, e, after) && AllUp(h)
    ensures AllUp(after) <==> !Strands(h, e, after)
  {
    hide Next, Swept, SweepErrs;
    match e
    case Spawned(idx) =>
    case FromRelay(step) => TablesUp(h, step, after);
    case FromCartridge(idx, generation, step) =>
      if Strands(h, e, after) {
        LateCall(h.tables, step, after.tables);
      } else if Current(h, idx, generation) {
        TablesUp(h, step, after);
      }
    case Died(idx, generation, appExit) => DeathUp(h, idx, generation, appExit);
    case Retired(idx, _) => RetiredUp(h, idx, after);
  }

  lemma LateCall(t: Tables, step: Step, u: Tables)
    requires Next(t, step, u) && step.PeerCall? && step.f.frame.id in u.outgoing
    ensures u.outgoing[step.f.frame.id] == step.idx
  {
    hide Collected, Invoked;
    CalledFrom(t, step.idx, step.f, step.parent, step.now, u);
  }

  lemma RetiredUp(h: Host, idx: Cartridge, after: Host)
    requires AllUp(h) && Up(h, idx) && after == h.(slots := h.slots[idx := h.slots[idx].(up := false)])
    ensures AllUp(after) <==> !Outstanding(h.tables, idx)
  {
    if Outstanding(h.tables, idx) {
      if k :| k in h.tables.incoming && h.tables.incoming[k] == idx {
        assert !Up(after, after.tables.incoming[k]);
      } else {
        var r :| r in h.tables.outgoing && h.tables.outgoing[r] == idx;
        assert !Up(after, after.tables.outgoing[r]);
      }
    }
  }

  /** Nothing is stranded before moment n. */
  ghost predicate NothingStranded(hs: seq<Host>, es: seq<Event>, n: nat)
    requires |hs| == |es| + 1 && n <= |es|
  {
    forall i :: 0 <= i < n ==> !Strands(hs[i], es[i], hs[i + 1])
  }

  /**
    Whether an entry outlives its cartridge: in every run, whatever dies, is spawned
    again and speaks late, each entry of both tables names a cartridge that is running
    at every moment exactly if no drain was cut off with an entry outstanding and no
    peer call of a retired process was still to be read.
  */
  lemma {:induction false} EntriesAreServedIff(hs: seq<Host>, es: seq<Event>, n: nat)
    requires HostTrace(hs, es) && hs[0].tables == NoRoutes && n <= |es|
    ensures (forall i :: 0 <= i <= n ==> AllUp(hs[i])) <==> NothingStranded(hs, es, n)
  {
    hide HostNext, AllUp, Strands;
    if n > 0 {
      EntriesAreServedIff(hs, es, n - 1);
      if AllUp(hs[n - 1]) {
        UpStep(hs[n - 1], es[n - 1], hs[n]);
      }
    } else {
      NothingServed(hs[0]);
    }
  }

  lemma NothingServed(h: Host)
    requires h.tables == NoRoutes
    ensures AllUp(h)
  {
  }

  // ---- A retired cartridge's death -------------------------------------------------------------------

  lemma {:induction false} StaysDown(hs: seq<Host>, es: seq<Event>, i: nat, j: nat, idx: Cartridge)
    requires HostTrace(hs, es) && i <= j <= |es| && idx < |hs[i].slots| && !hs[i].slots[idx].up
    requires forall m :: i <= m < j ==> es[m] != Spawned(idx)
    ensures idx < |hs[j].slots| && !hs[j].slots[idx].up
    decreases j
  {
    if i < j {
      StaysDown(hs, es, i, j - 1, idx);
      hide Next, Swept, SweepErrs;
    }
  }

  /**
    A retired process is never buried: until its cartridge is spawned again, no death
    event of it, whatever its generation, sweeps an entry or writes an ERR.
  */
  lemma RetiredOwesNothing(hs: seq<Host>, es: seq<Event>, i: nat, j: nat)
    requires HostTrace(hs, es) && i < j < |es| && es[i].Retired? && es[j].Died? && es[j].idx == es[i].idx
    requires forall m :: i < m < j ==> es[m] != Spawned(es[i].idx)
    ensures hs[j + 1] == hs[j]
  {
    StaysDown(hs, es, i + 1, j, es[i].idx);
  }

  /**
    The smallest such run: a cartridge is spawned and given a request, its drain is cut
    off, and its death is handled.  The request's entry is still there and its caller
    was sent nothing.
  */
  lemma DrainCutOff(h: Host, idx: Cartridge, k: RxidKey, now: Time) returns (hs: seq<Host>)
    requires h.tables == NoRoutes && h.errs == [] && idx < |h.slots| && !h.slots[idx].up
    ensures var generation := h.slots[idx].generation + 1;
            HostTrace(hs, [Spawned(idx), FromRelay(NewRequest(k, idx, true, now)), Retired(idx, true),
                           Died(idx, generation, false)])
            && hs[0] == h && k in hs[4].tables.incoming && hs[4].tables.incoming[k] == idx
            && !Up(hs[4], idx) && hs[4].errs == []
  {
    hide Swept, SweepErrs, Outstanding;
    var process := Process(idx, h.slots[idx].generation + 1);
    var spawned := h.(slots := Renewed(h, idx, true), born := h.born + {process});
    var asked := spawned.(tables := Recorded(NoRoutes, k, idx, now));
    var cutOff := asked.(slots := asked.slots[idx := asked.slots[idx].(up := false)]);
    assert Collected(asked.tables, asked.tables);
    assert Next(NoRoutes, NewRequest(k, idx, true, now), asked.tables);
    assert process in cutOff.born && Buried(cutOff, idx, process.generation, false) == cutOff;
    hs := [h, spawned, asked, cutOff, cutOff];
  }

  // ---- At the relay --------------------------------------------------------------------------------

  lemma {:induction false} InOrderRun(passed: seq<Frame>, limit: nat)
    requires Numbered(passed)
    ensures RunFlow(passed, limit) == Some(FlowRun(FlowState(Reorder(|passed|, []), map[]), passed))
  {
    if passed != [] {
      var before, f := passed[..|passed| - 1], passed[|passed| - 1];
      InOrderRun(before, limit);
      AcceptAtRest(|before|, f, limit);
      assert passed == before + [f];
    }
  }

  /**
    What the relay makes of a host's ERR behind the frames that passed before it:
    delivered exactly when its number is the next, refused, which ends the relay,
    when it is lower, and held back for ever when it is higher.
  */
  lemma ErrAtRelay(passed: seq<Frame>, err: Frame, limit: nat)
    requires Numbered(passed) && limit > 0
    ensures var run := RunFlow(passed + [err], limit);
            (err.num == |passed| ==> run.Some? && run.value.out == passed + [err])
            && (err.num < |passed| ==> run.None?)
            && (err.num > |passed| ==>
                  run.Some? && run.value.out == passed && run.value.state.buffer == map[err.num := err])
  {
    hide RunFlow, Ordered;
    InOrderRun(passed, limit);
    RunFlowSnoc(passed, err, limit);
    if err.num == |passed| {
      InOrderRun(passed + [err], limit);
    } else if err.num > |passed| {
      assert passed + [] == passed;
    }
  }

  // ---- What the host has recorded ------------------------------------------------------------------

  /** An ERR the host itself writes for a flow. */
  function HostErr(flow: FlowKey, num: nat): Frame {
    Frame(FrameType.Err, flow.rid, flow.xid, num, 0)
  }

  /**
    What one step sends on a flow: a frame of a cartridge passed on; or an ERR of the
    host's own, for a REQ that nothing serves or that its cartridge does not take,
    which carries no number of the flow's, and for a continuation its cartridge does
    not take, which is numbered one past the record.
  */
  function OutOf(t: Tables, step: Step, flow: FlowKey): seq<Frame> {
    match step
    case NewRequest(key, _, ok, _) =>
      if !ok && FlowKey(key.rid, Some(key.xid)) == flow then [HostErr(flow, 0)] else []
    case Unserved(key) => if FlowKey(key.rid, Some(key.xid)) == flow then [HostErr(flow, 0)] else []
    case Continuation(f, xid, ok, now) =>
      var err := Continued(t, f, xid, ok, now).err;
      if err.Some? && FlowKey(f.frame.id, Some(xid)) == flow then [HostErr(flow, err.value)] else []
    case PeerCall(_, f, _, _) => if f.frame.Key() == flow then [f.frame] else []
    case FlowOut(out, _) => if out.Key() == flow then [out] else []
    case _ => []
  }

  /** The flow's frames the host has sent to the relay, its own among them, in order. */
  function PassedOut(ts: seq<Tables>, steps: seq<Step>, flow: FlowKey): seq<Frame>
    requires |ts| == |steps| + 1
  {
    if steps == [] then []
    else
      var n := |steps| - 1;
      PassedOut(ts[..n + 1], steps[..n], flow) + OutOf(ts[n], steps[n], flow)
  }

  /** The last number of a flow that is not over. */
  function LastNum(passed: seq<Frame>): Option<nat> {
    if passed == [] || IsTerminal(passed[|passed| - 1].kind) then None else Some(passed[|passed| - 1].num)
  }

  /**
    No step takes the flow's record but its own end: no eviction, no death; and no REQ
    under the flow's key is turned away while there is a record, which ends the flow
    and leaves the record.
  */
  predicate RecordKept(t: Tables, step: Step, u: Tables, flow: FlowKey) {
    match step
    case NewRequest(key, _, ok, _) =>
      (flow in t.maxSeq ==> flow in u.maxSeq) && (!ok && FlowKey(key.rid, Some(key.xid)) == flow ==> flow !in t.maxSeq)
    case Unserved(key) => FlowKey(key.rid, Some(key.xid)) == flow ==> flow !in t.maxSeq
    case PeerCall(_, f, _, _) => flow in t.maxSeq || f.frame.Key() == flow ==> flow in u.maxSeq
    case FlowOut(out, _) =>
      !IsTerminal(out.kind) ==> (flow in t.maxSeq || out.Key() == flow ==> flow in u.maxSeq)
    case Death(idx) => flow !in OwnFlows(t, idx)
    case _ => true
  }

  predicate RecordIs(t: Tables, flow: FlowKey, last: Option<nat>) {
    if flow in t.maxSeq then last == Some(t.maxSeq[flow]) else last.None?
  }

  /** What is still there is what was there. */
  lemma CollectedRecord(t: Tables, u: Tables, flow: FlowKey, last: Option<nat>)
    requires Collected(t, u) && RecordIs(t, flow, last) && (flow in t.maxSeq ==> flow in u.maxSeq)
    ensures RecordIs(u, flow, last) && (flow in u.maxSeq <==> flow in t.maxSeq)
  {
  }

  lemma RequestRecord(t: Tables, key: RxidKey, idx: Cartridge, ok: bool, now: Time, u: Tables, flow: FlowKey,
                      last: Option<nat>)
    requires Admitted(t, key, idx, ok, now, u) && (flow in t.maxSeq ==> flow in u.maxSeq) && RecordIs(t, flow, last)
    ensures RecordIs(u, flow, last) && (flow in u.maxSeq <==> flow in t.maxSeq)
  {
    hide Collected;
    var m :| Collected(Recorded(t, key, idx, now), m) && u == if ok then m else Forgotten(m, key);
    CollectedRecord(Recorded(t, key, idx, now), m, flow, last);
  }

  lemma NotedRecord(t: Tables, f: Frame, now: Time, flow: FlowKey, last: Option<nat>)
    requires RecordIs(t, flow, last)
    ensures RecordIs(NotedSeq(t, f, now), flow, if f.Key() == flow then Some(f.num) else last)
    ensures flow in NotedSeq(t, f, now).maxSeq <==> flow in t.maxSeq || f.Key() == flow
  {
  }

  lemma EndedRecord(t: Tables, f: Frame, flow: FlowKey, last: Option<nat>)
    requires RecordIs(t, flow, last)
    ensures RecordIs(EndedOutbound(t, f), flow, if f.Key() == flow then None else last)
  {
    hide ResponseEnded;
    SilencedRecord(t, f.Key(), flow, last);
    hide Silenced;
  }

  lemma SilencedRecord(t: Tables, over: FlowKey, flow: FlowKey, last: Option<nat>)
    requires RecordIs(t, flow, last)
    ensures RecordIs(Silenced(t, over), flow, if over == flow then None else last)
  {
  }

  lemma InvokedRecord(t: Tables, idx: Cartridge, f: HostFrame, parent: Option<RxidKey>, now: Time, flow: FlowKey,
                      last: Option<nat>)
    requires RecordIs(t, flow, last)
    ensures RecordIs(Invoked(t, idx, f, parent, now), flow, if f.frame.Key() == flow then Some(f.frame.num) else last)
    ensures flow in Invoked(t, idx, f, parent, now).maxSeq <==> flow in t.maxSeq || f.frame.Key() == flow
  {
    NotedRecord(Called(t, f.frame.id, idx, now), f.frame, now, flow, last);
    hide NotedSeq;
  }

  lemma DeathRecord(t: Tables, idx: Cartridge, flow: FlowKey, last: Option<nat>)
    requires RecordIs(t, flow, last) && flow !in OwnFlows(t, idx)
    ensures RecordIs(Swept(t, idx), flow, last)
  {
    hide OwnFlows;
  }

  /** A write that fails takes the record, and ends its flow. */
  lemma ContinuedRecord(t: Tables, f: HostFrame, xid: MessageId, ok: bool, now: Time, flow: FlowKey)
    ensures var c := Continued(t, f, xid, ok, now);
            if c.err.Some? && FlowKey(f.frame.id, Some(xid)) == flow then
              flow !in c.tables.maxSeq && c.err.value == NextErr(t, flow)
            else
              (flow in c.tables.maxSeq <==> flow in t.maxSeq)
              && (flow in t.maxSeq ==> c.tables.maxSeq[flow] == t.maxSeq[flow])
  {
    hide EndedInbound, RouteOf;
  }

  lemma CallRecord(t: Tables, idx: Cartridge, f: HostFrame, parent: Option<RxidKey>, now: Time, u: Tables,
                   flow: FlowKey, last: Option<nat>)
    requires Collected(Invoked(t, idx, f, parent, now), u) && RecordIs(t, flow, last)
    requires flow in t.maxSeq || f.frame.Key() == flow ==> flow in u.maxSeq
    ensures RecordIs(u, flow, if f.frame.Key() == flow then Some(f.frame.num) else last)
  {
    hide Collected, Invoked, RecordIs;
    InvokedRecord(t, idx, f, parent, now, flow, last);
    CollectedRecord(Invoked(t, idx, f, parent, now), u, flow,
                    if f.frame.Key() == flow then Some(f.frame.num) else last);
  }

  lemma FrameRecord(t: Tables, f: Frame, now: Time, u: Tables, flow: FlowKey, last: Option<nat>)
    requires Collected(NotedSeq(t, f, now), u) && RecordIs(t, flow, last)
    requires flow in t.maxSeq || f.Key() == flow ==> flow in u.maxSeq
    ensures RecordIs(u, flow, if f.Key() == flow then Some(f.num) else last)
  {
    hide Collected, NotedSeq, RecordIs;
    NotedRecord(t, f, now, flow, last);
    CollectedRecord(NotedSeq(t, f, now), u, flow, if f.Key() == flow then Some(f.num) else last);
  }

  lemma WriteRecord(t: Tables, f: HostFrame, xid: MessageId, ok: bool, now: Time, flow: FlowKey, last: Option<nat>)
    requires RecordIs(t, flow, last)
    ensures var c := Continued(t, f, xid, ok, now);
            RecordIs(c.tables, flow, if c.err.Some? && FlowKey(f.frame.id, Some(xid)) == flow then None else last)
  {
    ContinuedRecord(t, f, xid, ok, now, flow);
    hide Continued;
  }

  lemma TouchRecord(t: Tables, step: Step, u: Tables, flow: FlowKey, last: Option<nat>)
    requires Next(t, step, u) && Touches(step) && RecordIs(t, flow, last)
    ensures RecordIs(u, flow, last)
  {
    OnlyTouches(t, step, u);
    hide Next;
  }

  /** Each step's frame is what the record says next. */
  lemma RecordStep(t: Tables, step: Step, u: Tables, flow: FlowKey, last: Option<nat>)
    requires Next(t, step, u) && RecordKept(t, step, u, flow) && RecordIs(t, flow, last)
    ensures RecordIs(u, flow, if OutOf(t, step, flow) == [] then last else LastNum(OutOf(t, step, flow)))
  {
    hide Admitted, Collected, Continued, Invoked, NotedSeq, EndedOutbound, OwnFlows, Swept, Tapped, Cancelled, Logged;
    if Touches(step) {
      TouchRecord(t, step, u, flow, last);
    }
    match step
    case NewRequest(key, idx, ok, now) => RequestRecord(t, key, idx, ok, now, u, flow, last);
    case Continuation(f, xid, ok, now) => WriteRecord(t, f, xid, ok, now, flow, last);
    case PeerCall(idx, f, parent, now) => CallRecord(t, idx, f, parent, now, u, flow, last);
    case FlowOut(f, now) =>
      if IsTerminal(f.kind) {
        EndedRecord(t, f, flow, last);
      } else {
        FrameRecord(t, f, now, u, flow, last);
      }
    case Death(idx) => DeathRecord(t, idx, flow, last);
    case _ =>
  }

  lemma LastSnoc(before: seq<Frame>, out: seq<Frame>)
    ensures LastNum(before + out) == if out == [] then LastNum(before) else LastNum(out)
  {
    assert before + [] == before;
  }

  lemma PassedSnoc(ts: seq<Tables>, steps: seq<Step>, flow: FlowKey, n: nat)
    requires |ts| == |steps| + 1 && 0 < n <= |steps|
    ensures PassedOut(ts[..n + 1], steps[..n], flow)
         == PassedOut(ts[..n], steps[..n - 1], flow) + OutOf(ts[n - 1], steps[n - 1], flow)
  {
    assert ts[..n + 1][..n] == ts[..n] && steps[..n][..n - 1] == steps[..n - 1];
  }

  /** Over every run the record of a flow is the number of the last frame sent, until the flow is over. */
  lemma {:induction false} RecordFollows(ts: seq<Tables>, steps: seq<Step>, flow: FlowKey, n: nat)
    requires Trace(ts, steps) && ts[0] == NoRoutes && n <= |steps|
    requires forall i :: 0 <= i < n ==> RecordKept(ts[i], steps[i], ts[i + 1], flow)
    ensures RecordIs(ts[n], flow, LastNum(PassedOut(ts[..n + 1], steps[..n], flow)))
  {
    hide Next, RecordKept, RecordIs, LastNum, PassedOut, OutOf;
    if n > 0 {
      RecordFollows(ts, steps, flow, n - 1);
      var before, out := PassedOut(ts[..n], steps[..n - 1], flow), OutOf(ts[n - 1], steps[n - 1], flow);
      RecordStep(ts[n - 1], steps[n - 1], ts[n], flow, LastNum(before));
      LastSnoc(before, out);
      PassedSnoc(ts, steps, flow, n);
    } else {
      NothingRecorded(ts, steps, flow);
    }
  }

  lemma NothingRecorded(ts: seq<Tables>, steps: seq<Step>, flow: FlowKey)
    requires |ts| == |steps| + 1
    ensures RecordIs(NoRoutes, flow, LastNum(PassedOut(ts[..1], steps[..0], flow)))
  {
  }

  lemma OutOfOnFlow(t: Tables, step: Step, u: Tables, flow: FlowKey)
    requires Next(t, step, u)
    ensures AllIn(OutOf(t, step, flow), flow)
  {
    hide Collected, Invoked, NotedSeq, Admitted, Continued, EndedOutbound;
  }

  lemma {:induction false} PassedOnFlow(ts: seq<Tables>, steps: seq<Step>, flow: FlowKey, n: nat)
    requires Trace(ts, steps) && n <= |steps|
    ensures AllIn(PassedOut(ts[..n + 1], steps[..n], flow), flow)
  {
    hide Next, OutOf;
    if n > 0 {
      PassedOnFlow(ts, steps, flow, n - 1);
      PassedSnoc(ts, steps, flow, n);
      OutOfOnFlow(ts[n - 1], steps[n - 1], ts[n], flow);
    }
  }

  lemma LastIsCounted(passed: seq<Frame>, flow: FlowKey)
    requires AllIn(passed, flow) && InSequence(passed)
    ensures LastNum(passed) == if SinceTerminal(passed, flow) == 0 then None else Some(SinceTerminal(passed, flow) - 1)
  {
  }

  /** A run in which nothing took the flow's record and the flow's frames are numbered without a gap. */
  ghost predicate OnRecord(ts: seq<Tables>, steps: seq<Step>, flow: FlowKey) {
    Trace(ts, steps) && ts[0] == NoRoutes
    && (forall i :: 0 <= i < |steps| ==> RecordKept(ts[i], steps[i], ts[i + 1], flow))
    && InSequence(PassedOut(ts, steps, flow))
  }

  /** What the relay makes of an ERR behind what it passed on: passed on too, or numbered 1 and kept. */
  ghost predicate PassedOnOrKept(passed: seq<Frame>, err: Frame, limit: nat)
    requires limit > 0
  {
    var run := Relayed(passed + [err], limit);
    run.Some? && if SinceTerminal(passed, err.Key()) > 0 then run.value.out == passed + [err]
                 else err.num == 1 && run.value.out == passed && run.value.FlowOf(err.Key()).buffer == map[1 := err]
  }

  /**
    An ERR the host numbers by its record, at the relay: over every such run it is
    passed on exactly when the flow has carried a frame since it was last over.
  */
  lemma OwedErrDeliveredIff(ts: seq<Tables>, steps: seq<Step>, flow: FlowKey, err: Frame, limit: nat)
    requires OnRecord(ts, steps, flow) && limit > 0
    requires IsTerminal(err.kind) && err.Key() == flow && err.num == NextErr(ts[|steps|], flow)
    ensures PassedOnOrKept(PassedOut(ts, steps, flow), err, limit)
  {
    hide Next, RecordKept, NextErr, InSequence, PassedOut, PassedOnOrKept;
    ErrFollows(ts, steps, flow);
    ErrBehind(PassedOut(ts, steps, flow), err, limit);
  }

  lemma ErrBehind(passed: seq<Frame>, err: Frame, limit: nat)
    requires InSequence(passed) && limit > 0 && IsTerminal(err.kind)
    requires err.num == Max(1, SinceTerminal(passed, err.Key()))
    ensures PassedOnOrKept(passed, err, limit)
  {
    hide PassesAtOnce, InSequence, Relayed, RelayStep, Caught, AllOk, SinceTerminal;
    PassesAtOnceIff(passed, limit);
    RelayedSnoc(passed, err, limit);
    ErrPasses(passed, Relayed(passed, limit).value, err, limit);
  }

  lemma RelayedSnoc(arrived: seq<Frame>, f: Frame, limit: nat)
    ensures Relayed(arrived + [f], limit)
         == if Relayed(arrived, limit).None? then None else RelayStep(Relayed(arrived, limit).value, f, limit)
  {
    assert (arrived + [f])[..|arrived|] == arrived;
  }

  /**
    The ERR a death leaves owing.  A handler that dies before its first frame leaves
    its caller without the ERR; and one that dies after its response has ended, with
    the body still open, is owed an ERR that the relay keeps for good.
  */
  lemma SweepErrDeliveredIff(ts: seq<Tables>, steps: seq<Step>, idx: Cartridge, flow: FlowKey, err: Frame, limit: nat)
    requires OnRecord(ts, steps, flow) && limit > 0
    requires flow in SweepErrs(ts[|steps|], idx) && err.num == SweepErrs(ts[|steps|], idx)[flow]
    requires IsTerminal(err.kind) && err.Key() == flow
    ensures PassedOnOrKept(PassedOut(ts, steps, flow), err, limit)
  {
    hide OnRecord, PassedOnOrKept, OwnFlows;
    OwedErrDeliveredIff(ts, steps, flow, err, limit);
  }

  /** The same of the ERR for a continuation whose cartridge no longer takes it. */
  lemma WriteErrDeliveredIff(ts: seq<Tables>, steps: seq<Step>, f: HostFrame, xid: MessageId, now: Time, limit: nat)
    requires OnRecord(ts, steps, FlowKey(f.frame.id, Some(xid))) && limit > 0
    requires Continued(ts[|steps|], f, xid, false, now).err.Some?
    ensures var flow := FlowKey(f.frame.id, Some(xid));
            var out := OutOf(ts[|steps|], Continuation(f, xid, false, now), flow);
            |out| == 1 && IsTerminal(out[0].kind) && PassedOnOrKept(PassedOut(ts, steps, flow), out[0], limit)
  {
    hide Next, RecordKept, InSequence, PassedOnOrKept, Continued, NextErr, PassedOut;
    var t, flow := ts[|steps|], FlowKey(f.frame.id, Some(xid));
    ContinuedRecord(t, f, xid, false, now, flow);
    hide OnRecord;
    OwedErrDeliveredIff(ts, steps, flow, HostErr(flow, NextErr(t, flow)), limit);
  }

  /** A REQ turned away on a flow at rest: its ERR is passed on, and the flow's next frame starts anew. */
  lemma TurnedAwayIsDelivered(ts: seq<Tables>, steps: seq<Step>, key: RxidKey, limit: nat)
    requires OnRecord(ts, steps, FlowKey(key.rid, Some(key.xid))) && limit > 0
    requires SinceTerminal(PassedOut(ts, steps, FlowKey(key.rid, Some(key.xid))), FlowKey(key.rid, Some(key.xid))) == 0
    ensures var flow := FlowKey(key.rid, Some(key.xid));
            var passed := PassedOut(ts, steps, flow);
            PassesAtOnce(passed + OutOf(ts[|steps|], Unserved(key), flow), limit)
  {
    var flow := FlowKey(key.rid, Some(key.xid));
    var passed := PassedOut(ts, steps, flow);
    assert (passed + [HostErr(flow, 0)])[..|passed|] == passed;
    hide PassedOut, PassesAtOnce;
    PassesAtOnceIff(passed + [HostErr(flow, 0)], limit);
  }

  /**
    A request whose response has ended but whose body has not: its handler's death owes
    a second terminal, which the relay keeps.
  */
  lemma SecondTerminalIsKept(ts: seq<Tables>, steps: seq<Step>, idx: Cartridge, k: RxidKey, err: Frame, limit: nat)
    requires OnRecord(ts, steps, FlowKey(k.rid, Some(k.xid))) && limit > 0
    requires var flow := FlowKey(k.rid, Some(k.xid));
             SinceTerminal(PassedOut(ts, steps, flow), flow) == 0
             && IsTerminal(err.kind) && err.Key() == flow && err.num == NextErr(ts[|steps|], flow)
    requires LifeOf(ts[|steps|], k) == Life(Some(idx), false, true)
    ensures var flow, passed := FlowKey(k.rid, Some(k.xid)), PassedOut(ts, steps, FlowKey(k.rid, Some(k.xid)));
            flow in SweepErrs(ts[|steps|], idx) && SweepErrs(ts[|steps|], idx)[flow] == 1
            && Relayed(passed + [err], limit).Some? && Relayed(passed + [err], limit).value.out == passed
  {
    assert |ts| == |steps| + 1;
    hide OnRecord, Relayed, PassedOut;
    var flow := FlowKey(k.rid, Some(k.xid));
    OwnIncomingFlow(ts[|steps|], idx, k);
    hide OwnFlows;
    SweepErrDeliveredIff(ts, steps, idx, flow, err, limit);
  }

  lemma ErrFollows(ts: seq<Tables>, steps: seq<Step>, flow: FlowKey)
    requires OnRecord(ts, steps, flow)
    ensures NextErr(ts[|steps|], flow) == Max(1, SinceTerminal(PassedOut(ts, steps, flow), flow))
  {
    hide Next, RecordKept, PassedOut;
    assert steps[..|steps|] == steps && ts[..|steps| + 1] == ts;
    RecordFollows(ts, steps, flow, |steps|);
    PassedOnFlow(ts, steps, flow, |steps|);
    LastIsCounted(PassedOut(ts, steps, flow), flow);
  }

  lemma ErrPasses(passed: seq<Frame>, run: BufferRun, err: Frame, limit: nat)
    requires AllOk(run.flows) && Caught(passed, run) && limit > 0 && IsTerminal(err.kind)
    requires err.num == Max(1, SinceTerminal(passed, err.Key()))
    ensures var r := RelayStep(run, err, limit);
            r.Some? && if SinceTerminal(passed, err.Key()) > 0 then r.value.out == passed + [err]
                       else r.value.out == passed && r.value.FlowOf(err.Key()).buffer == map[1 := err]
  {
    OneMorePasses(passed, run, err, limit);
    assert run.FlowOf(err.Key()) == FlowState(Reorder(SinceTerminal(passed, err.Key()), []), map[]);
    if SinceTerminal(passed, err.Key()) == 0 {
      assert AcceptFrame(run.FlowOf(err.Key()), err, limit) == Ready(FlowState(Reorder(0, [1]), map[1 := err]), []);
      assert passed + [] == passed;
      assert EndedIn([]) == {};
    }
  }

  /** And one whose record was evicted meanwhile ends the relay once two frames have passed. */
  lemma EvictedRecordEndsRelay(t: Tables, passed: seq<Frame>, err: Frame, flow: FlowKey, limit: nat)
    requires Numbered(passed) && limit > 0 && err.num == NextErr(t, flow) && flow !in t.maxSeq
    ensures RunFlow(passed + [err], limit).None? <==> |passed| >= 2
  {
    ErrAtRelay(passed, err, limit);
  }
}
