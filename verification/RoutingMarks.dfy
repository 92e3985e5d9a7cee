/**
  The marks of ended bodies and responses, over whole runs from the empty tables:
  when a mark outlives its entry, and what a request's key looks like before its
  REQ has come.
*/
module RoutingMarks {
  import opened Frames
  import opened RoutingTables
  import opened RoutingRuns
  import opened Wrappers

  predicate Marked(t: Tables, k: RxidKey) {
    k in t.bodyDone || k in t.responseDone
  }

  /** A mark says something of an entry, so there should be one. */
  predicate MarkOk(t: Tables, k: RxidKey) {
    Marked(t, k) ==> k in t.incoming
  }

  ghost predicate MarksHaveEntries(t: Tables) {
    forall k :: MarkOk(t, k)
  }

  /** The collector takes the entry, the step itself does not. */
  predicate Evicts(t: Tables, step: Step, u: Tables, k: RxidKey) {
    (step.PeerCall? || (step.NewRequest? && (step.ok || step.key != k))
     || (step.FlowOut? && !IsTerminal(step.out.kind)))
    && k in t.incoming && k !in u.incoming
  }

  /** A marked entry is evicted, or its key's REQ comes again and is undone for want of a cartridge to take it. */
  predicate LosesMark(t: Tables, step: Step, u: Tables, k: RxidKey) {
    Marked(t, k) && (Evicts(t, step, u, k) || (step.NewRequest? && !step.ok && step.key == k))
  }

  ghost predicate LosesMarked(t: Tables, step: Step, u: Tables) {
    exists k :: LosesMark(t, step, u, k)
  }

  lemma ContinuedMark(t: Tables, f: HostFrame, xid: MessageId, ok: bool, now: Time, k: RxidKey)
    requires MarkOk(t, k) && t.bodyDone !! t.responseDone
    ensures MarkOk(Continued(t, f, xid, ok, now).tables, k)
  {
    ContinuedView(t, f, xid, ok, now, k);
    assert k in t.bodyDone ==> k !in t.responseDone;
    var u := Continued(t, f, xid, ok, now).tables;
    assert LifeOf(u, k).entry.Some? <==> k in u.incoming;
    assert ViewOf(u, k).life == LifeOf(u, k) && ViewOf(t, k).life == LifeOf(t, k);
    hide Continued;
  }

  lemma EndedOutboundMark(t: Tables, f: Frame, k: RxidKey)
    requires MarkOk(t, k) && t.bodyDone !! t.responseDone
    ensures MarkOk(EndedOutbound(t, f), k)
  {
    EndedOutboundView(t, f, k);
    assert k in t.bodyDone ==> k !in t.responseDone;
    var u := EndedOutbound(t, f);
    assert ViewOf(u, k).life == LifeOf(u, k) && ViewOf(t, k).life == LifeOf(t, k);
    hide EndedOutbound;
  }

  /** The steps that move no mark: an entry under a mark goes exactly if it is evicted or undone. */
  lemma QuietMark(t: Tables, step: Step, u: Tables, k: RxidKey)
    requires Next(t, step, u) && !step.Continuation? && !step.Death? && !(step.FlowOut? && IsTerminal(step.out.kind))
    requires MarkOk(t, k)
    ensures MarkOk(u, k) <==> !LosesMark(t, step, u, k)
  {
    if Touches(step) {
      OnlyTouches(t, step, u);
    }
    if step.NewRequest? && !step.ok && step.key == k {
      var m :| Collected(Recorded(t, step.key, step.idx, step.now), m) && u == Forgotten(m, step.key);
    }
    hide Next;
    QuietView(t, step, u, k);
  }

  lemma MarkStepAt(t: Tables, step: Step, u: Tables, k: RxidKey)
    requires t.bodyDone !! t.responseDone && MarkOk(t, k) && Next(t, step, u)
    ensures MarkOk(u, k) <==> !LosesMark(t, step, u, k)
  {
    hide Admitted, Collected, Invoked, NotedSeq, Continued, EndedOutbound, Swept, MarkOk;
    match step
    case Continuation(f, xid, ok, now) => ContinuedMark(t, f, xid, ok, now, k);
    case Death(idx) => DeathMark(t, idx, k);
    case FlowOut(f, now) =>
      if IsTerminal(f.kind) {
        EndedOutboundMark(t, f, k);
      } else {
        QuietMark(t, step, u, k);
      }
    case _ => QuietMark(t, step, u, k);
  }

  lemma DeathMark(t: Tables, idx: Cartridge, k: RxidKey)
    requires MarkOk(t, k)
    ensures MarkOk(Swept(t, idx), k)
  {
  }

  lemma MarkStep(t: Tables, step: Step, u: Tables)
    requires t.bodyDone !! t.responseDone && MarksHaveEntries(t) && Next(t, step, u)
    ensures MarksHaveEntries(u) <==> !LosesMarked(t, step, u)
  {
    hide Next, MarkOk, LosesMark;
    forall k
      ensures MarkOk(u, k) <==> !LosesMark(t, step, u, k)
    {
      assert MarkOk(t, k);
      MarkStepAt(t, step, u, k);
    }
  }

  /**
    Over every run from the empty tables: at every moment each marked request has
    its entry, exactly while no marked entry was evicted and no marked key's
    repeated REQ was undone.
  */
  lemma {:induction false} MarksKeepEntriesIff(ts: seq<Tables>, steps: seq<Step>)
    requires Trace(ts, steps) && ts[0] == NoRoutes
    ensures (forall i :: 0 <= i <= |steps| ==> MarksHaveEntries(ts[i]))
            <==> (forall i :: 0 <= i < |steps| ==> !LosesMarked(ts[i], steps[i], ts[i + 1]))
    decreases |steps|
  {
    hide Next, LosesMarked;
    if steps == [] {
      assert MarksHaveEntries(ts[0]);
    } else {
      var n := |steps| - 1;
      MarksKeepEntriesIff(ts[..n + 1], steps[..n]);
      TablesStaySound(ts, steps, n);
      if MarksHaveEntries(ts[n]) {
        MarkStep(ts[n], steps[n], ts[n + 1]);
      }
      hide MarksHaveEntries;
      assert (forall i :: 0 <= i <= n ==> MarksHaveEntries(ts[i]))
             <==> (forall i :: 0 <= i < n ==> !LosesMarked(ts[i], steps[i], ts[i + 1])) by {
        assert forall i :: 0 <= i <= n ==> ts[..n + 1][i] == ts[i];
        assert forall i :: 0 <= i < n ==> steps[..n][i] == steps[i];
      }
    }
  }

  // ---- When the collector takes an entry ----------------------------------------------------------

  /** A new request comes when its table is one short of the watermark. */
  predicate AtWatermark(t: Tables, step: Step) {
    step.NewRequest? && step.key !in t.incoming && |t.incoming| == SOFT_WATERMARK - 1
  }

  lemma PutSize<K, V>(m: map<K, V>, k: K, v: V)
    ensures m[k := v].Keys == m.Keys + {k}
    ensures |m[k := v]| == |m| + if k in m then 0 else 1
  {
    var keys := m.Keys;
    assert m[k := v].Keys == keys + {k};
    if k in m {
      assert keys + {k} == keys;
    } else {
      assert |keys + {k}| == |keys| + 1;
    }
  }

  lemma RecordedSize(t: Tables, key: RxidKey, idx: Cartridge, now: Time)
    ensures var r := Recorded(t, key, idx, now);
            r.incoming.Keys == t.incoming.Keys + {key} && r.incomingTouched.Keys == t.incomingTouched.Keys + {key}
            && |r.incoming| == |t.incoming| + if key in t.incoming then 0 else 1
  {
    PutSize(t.incoming, key, idx);
    PutSize(t.incomingTouched, key, now);
  }

  /** Of a table at the watermark something other than a given key goes. */
  lemma SomeOtherGoes(t: Tables, m: Tables, key: RxidKey) returns (k: RxidKey)
    requires Collected(t, m) && |t.incoming| == SOFT_WATERMARK && t.incomingTouched.Keys == t.incoming.Keys
    ensures k != key && k in t.incoming && k !in m.incoming
  {
    hide OldestFirst;
    CollectedBelow(t.incoming, t.incomingTouched, m.incoming, m.incomingTouched);
    var gone := t.incoming.Keys - m.incoming.Keys;
    assert |gone| == 1638;
    assert gone - {key} != {};
    k :| k in gone - {key};
  }

  lemma RequestEvicts(t: Tables, step: Step, m: Tables, u: Tables)
    requires step.NewRequest? && |t.incoming| < SOFT_WATERMARK && t.incomingTouched.Keys == t.incoming.Keys
    requires Collected(Recorded(t, step.key, step.idx, step.now), m)
    requires u == if step.ok then m else Forgotten(m, step.key)
    ensures (exists k :: Evicts(t, step, u, k)) <==> AtWatermark(t, step)
  {
    hide Collected, Recorded;
    var r := Recorded(t, step.key, step.idx, step.now);
    RecordedSize(t, step.key, step.idx, step.now);
    if AtWatermark(t, step) {
      var k := SomeOtherGoes(r, m, step.key);
      assert k in r.incoming.Keys && k in t.incoming;
      StillGone(m, step.key, k);
      assert Evicts(t, step, u, k);
    } else {
      BelowStays(r, m);
      NoneGone(t, step, m, u);
    }
  }

  lemma StillGone(m: Tables, key: RxidKey, k: RxidKey)
    ensures k !in m.incoming ==> k !in Forgotten(m, key).incoming
    ensures k in m.incoming && k != key ==> k in Forgotten(m, key).incoming
  {
  }

  lemma NoneGone(t: Tables, step: Step, m: Tables, u: Tables)
    requires step.NewRequest? && t.incoming.Keys <= m.incoming.Keys
    requires u == if step.ok then m else Forgotten(m, step.key)
    ensures !exists k :: Evicts(t, step, u, k)
  {
    hide Forgotten;
    forall k | k in t.incoming && Evicts(t, step, u, k)
      ensures false
    {
      assert k in t.incoming.Keys;
      StillGone(m, step.key, k);
    }
  }

  lemma BelowStays(t: Tables, u: Tables)
    requires Collected(t, u) && |t.incoming| < SOFT_WATERMARK
    ensures u.incoming == t.incoming && u.incomingTouched == t.incomingTouched
  {
  }

  /** The collector takes a request's entry exactly when a new request comes one short of the watermark. */
  lemma EvictsIff(t: Tables, step: Step, u: Tables)
    requires Sound(t) && Next(t, step, u)
    ensures (exists k :: Evicts(t, step, u, k)) <==> AtWatermark(t, step)
  {
    hide Collected, Recorded, Forgotten, Invoked, NotedSeq, EndedOutbound, Continued, Swept, Tapped, Cancelled, Logged;
    match step
    case NewRequest(key, idx, ok, now) =>
      var m :| Collected(Recorded(t, key, idx, now), m) && u == if ok then m else Forgotten(m, key);
      RequestEvicts(t, step, m, u);
    case PeerCall(idx, f, parent, now) => CallEvictsNone(t, idx, f, parent, now, u);
    case FlowOut(f, now) =>
      if !IsTerminal(f.kind) {
        FrameEvictsNone(t, f, now, u);
      }
    case _ =>
  }

  lemma CallEvictsNone(t: Tables, idx: Cartridge, f: HostFrame, parent: Option<RxidKey>, now: Time, u: Tables)
    requires |t.incoming| < SOFT_WATERMARK && Collected(Invoked(t, idx, f, parent, now), u)
    ensures u.incoming == t.incoming
  {
    hide Collected;
    BelowStays(Invoked(t, idx, f, parent, now), u);
  }

  lemma FrameEvictsNone(t: Tables, f: Frame, now: Time, u: Tables)
    requires |t.incoming| < SOFT_WATERMARK && Collected(NotedSeq(t, f, now), u)
    ensures u.incoming == t.incoming
  {
    hide Collected;
    BelowStays(NotedSeq(t, f, now), u);
  }

  // ---- Marks that stay for ever -------------------------------------------------------------------

  function Fresh(i: nat): RxidKey {
    RxidKey(i, i)
  }

  function BodyEnd(k: RxidKey): HostFrame {
    HostFrame(Frame(End, k.rid, Some(k.xid), 0, 0), None, None)
  }

  /** n requests one after the other, each under a key of its own, whose bodies end and whose responses do not. */
  function Unanswered(n: nat, idx: Cartridge): (steps: seq<Step>)
    ensures |steps| == 2 * n
  {
    if n == 0 then []
    else
      Unanswered(n - 1, idx)
      + [NewRequest(Fresh(n - 1), idx, true, n), Continuation(BodyEnd(Fresh(n - 1)), n - 1, true, n)]
  }

  /** After n of them: all n marked, some of them with an entry, and the last not touched after the n-th. */
  ghost predicate Waiting(t: Tables, n: nat) {
    Sound(t) && t.outgoing == map[] && t.peers == map[] && t.maxSeq == map[] && t.responseDone == {}
    && (forall k :: k in t.bodyDone <==> k.xid == k.rid < n) && |t.bodyDone| == n
    && t.incoming.Keys <= t.bodyDone && forall k :: k in t.incomingTouched ==> t.incomingTouched[k] <= n
  }

  /** Any number of oldest entries can be chosen. */
  lemma {:induction false} SomeVictims<K(!new)>(all: set<K>, touched: map<K, Time>, n: nat) returns (victims: set<K>)
    requires n <= |all|
    ensures OldestFirst(all, victims, touched) && |victims| == n
  {
    if n == 0 {
      victims := {};
    } else {
      var fewer := SomeVictims(all, touched, n - 1);
      assert |all - fewer| == |all| - |fewer|;
      assert all - fewer != {};
      var k := SomeOldest(all - fewer, touched);
      victims := fewer + {k};
    }
  }

  /** The collector can take its turn, and the youngest entry stays. */
  lemma CollectYoungest(t: Tables, k: RxidKey) returns (u: Tables)
    requires Synced(t) && Below(t, SOFT_WATERMARK + 1) && |t.outgoing| < SOFT_WATERMARK
    requires |t.peers| < SOFT_WATERMARK && |t.maxSeq| < SOFT_WATERMARK
    requires k in t.incoming
    requires forall j :: j in t.incomingTouched && j != k ==> t.incomingTouched[j] < t.incomingTouched[k]
    ensures Collected(t, u) && k in u.incoming && u == t.(incoming := u.incoming, incomingTouched := u.incomingTouched)
    ensures u.incoming.Keys <= t.incoming.Keys && forall j :: j in u.incoming ==> u.incoming[j] == t.incoming[j]
    ensures forall j :: j in u.incomingTouched ==>
              j in t.incomingTouched && u.incomingTouched[j] == t.incomingTouched[j]
  {
    if |t.incoming| < SOFT_WATERMARK {
      u := t;
    } else {
      assert |t.incoming.Keys| == SOFT_WATERMARK;
      var victims := SomeVictims(t.incoming.Keys, t.incomingTouched, 1638);
      u := t.(incoming := t.incoming - victims, incomingTouched := t.incomingTouched - victims);
      assert Evictions(SOFT_WATERMARK) == 1638;
      YoungestStays(t.incoming.Keys, victims, t.incomingTouched, k);
    }
  }

  lemma YoungestStays(all: set<RxidKey>, victims: set<RxidKey>, touched: map<RxidKey, Time>, k: RxidKey)
    requires OldestFirst(all, victims, touched) && |victims| < |all| - 1 && k in all && touched.Keys == all
    requires forall j :: j in touched && j != k ==> touched[j] < touched[k]
    ensures k !in victims
  {
    assert |all - victims| == |all| - |victims|;
    assert all - victims != {};
    var j :| j in all - victims;
    assert j != k ==> Age(touched, j) < Age(touched, k);
  }

  lemma OneMoreWaits(t: Tables, n: nat, idx: Cartridge) returns (a: Tables, b: Tables)
    requires Waiting(t, n)
    ensures Next(t, NewRequest(Fresh(n), idx, true, n + 1), a)
    ensures Next(a, Continuation(BodyEnd(Fresh(n)), n, true, n + 1), b) && Waiting(b, n + 1)
  {
    hide Continued, Collected, Sound, Recorded;
    var k := Fresh(n);
    a := OneMoreRecorded(t, n, idx);
    b := Continued(a, BodyEnd(k), n, true, n + 1).tables;
    ContinuedSound(a, BodyEnd(k), n, true, n + 1);
    BodyEndsWaiting(a, n);
    assert Admitted(t, k, idx, true, n + 1, a);
    assert b.bodyDone == t.bodyDone + {k};
  }

  /** The n-th request is recorded, and whatever the collector takes is older. */
  lemma OneMoreRecorded(t: Tables, n: nat, idx: Cartridge) returns (a: Tables)
    requires Waiting(t, n)
    ensures Collected(Recorded(t, Fresh(n), idx, n + 1), a) && Sound(a) && Fresh(n) in a.incoming
    ensures a.outgoing == map[] && a.peers == map[] && a.maxSeq == map[]
    ensures a.responseDone == {} && a.bodyDone == t.bodyDone
    ensures a.incoming.Keys <= t.bodyDone + {Fresh(n)}
    ensures forall j :: j in a.incomingTouched ==> a.incomingTouched[j] <= n + 1
  {
    var k := Fresh(n);
    var r := Recorded(t, k, idx, n + 1);
    RecordedGrows(t, k, idx, n + 1);
    a := CollectYoungest(r, k);
    CollectedSound(r, a);
    hide Collected, Sound;
  }

  lemma BodyEndsWaiting(a: Tables, n: nat)
    requires Fresh(n) in a.incoming && Fresh(n) !in a.bodyDone && Fresh(n) !in a.responseDone
    ensures Continued(a, BodyEnd(Fresh(n)), n, true, n + 1).tables
         == a.(incomingTouched := a.incomingTouched[Fresh(n) := n + 1], bodyDone := a.bodyDone + {Fresh(n)})
  {
  }

  /**
    Nothing bounds the marks: for every n, a run of n requests under keys of their own,
    whose bodies end and whose responses do not, ends with n marks, while the tables
    stay below the watermark.
  */
  lemma {:induction false} MarksAreUnbounded(n: nat, idx: Cartridge) returns (ts: seq<Tables>)
    ensures Trace(ts, Unanswered(n, idx)) && ts[0] == NoRoutes
    ensures |ts[2 * n].bodyDone| == n && |ts[2 * n].incoming| < SOFT_WATERMARK && Waiting(ts[2 * n], n)
  {
    hide Next, Sound;
    if n == 0 {
      NoneWaiting();
      ts := [NoRoutes];
    } else {
      var before := MarksAreUnbounded(n - 1, idx);
      var t := before[2 * (n - 1)];
      var a, b := OneMoreWaits(t, n - 1, idx);
      WaitingSmall(b, n);
      hide Waiting;
      var request := NewRequest(Fresh(n - 1), idx, true, n);
      var end := Continuation(BodyEnd(Fresh(n - 1)), n - 1, true, n);
      TwoSteps(t, request, a, end, b);
      TraceAppend(before, Unanswered(n - 1, idx), [t, a, b], [request, end]);
      ts := before + [t, a, b][1..];
    }
  }

  lemma NoneWaiting()
    ensures Waiting(NoRoutes, 0)
  {
  }

  lemma WaitingSmall(t: Tables, n: nat)
    requires Waiting(t, n)
    ensures |t.bodyDone| == n && |t.incoming| < SOFT_WATERMARK
  {
  }

  lemma TwoSteps(t: Tables, first: Step, a: Tables, second: Step, b: Tables)
    requires Next(t, first, a) && Next(a, second, b)
    ensures Trace([t, a, b], [first, second])
  {
    hide Next;
  }

  lemma TraceAppend(ts: seq<Tables>, steps: seq<Step>, more: seq<Tables>, further: seq<Step>)
    requires Trace(ts, steps) && Trace(more, further) && more[0] == ts[|steps|]
    ensures Trace(ts + more[1..], steps + further)
  {
    hide Next;
    var all, done := ts + more[1..], steps + further;
    forall i | 0 <= i < |done|
      ensures Next(all[i], done[i], all[i + 1])
    {
      if i < |steps| {
        assert Next(ts[i], steps[i], ts[i + 1]);
      } else {
        var j := i - |steps|;
        assert all[i] == more[j];
        assert Next(more[j], further[j], more[j + 1]);
      }
    }
  }

  // ---- From the REQ on -----------------------------------------------------------------------------

  predicate Requested(step: Step, k: RxidKey) {
    step.NewRequest? && step.key == k
  }

  /** What has no entry and no mark gets none from any step but its own REQ. */
  lemma AbsentStep(t: Tables, step: Step, u: Tables, k: RxidKey)
    requires Next(t, step, u) && LifeOf(t, k) == Life(None, false, false) && !Requested(step, k)
    ensures LifeOf(u, k) == Life(None, false, false)
  {
    match step
    case Continuation(f, xid, ok, now) =>
      ContinuedView(t, f, xid, ok, now, k);
      assert ViewOf(u, k).life == LifeOf(u, k) && ViewOf(t, k).life == LifeOf(t, k);
      hide Continued;
    case Death(idx) =>
    case FlowOut(f, now) =>
      hide EndedOutbound, Collected, NotedSeq;
      if IsTerminal(f.kind) {
        EndedOutboundView(t, f, k);
        assert ViewOf(u, k).life == LifeOf(u, k) && ViewOf(t, k).life == LifeOf(t, k);
      } else {
        QuietView(t, step, u, k);
      }
    case _ =>
      hide Next;
      QuietView(t, step, u, k);
  }

  /** A key never requested has no entry and no mark, at any moment of any run. */
  lemma {:induction false} NeverRequested(ts: seq<Tables>, steps: seq<Step>, k: RxidKey, n: nat)
    requires Trace(ts, steps) && ts[0] == NoRoutes && n <= |steps|
    requires forall i :: 0 <= i < n ==> !Requested(steps[i], k)
    ensures LifeOf(ts[n], k) == Life(None, false, false)
  {
    hide Next;
    if n > 0 {
      NeverRequested(ts, steps, k, n - 1);
      AbsentStep(ts[n - 1], steps[n - 1], ts[n], k);
    }
  }

  /**
    A request's whole life: from the REQ of a fresh key, which its cartridge takes
    and the collector leaves, the entry lives until body and response have both
    ended, in either order, and goes at the second.
  */
  lemma {:induction false} EntryLivesFromItsRequest(ts: seq<Tables>, steps: seq<Step>, k: RxidKey, h: Cartridge, n: nat)
    requires Trace(ts, steps) && ts[0] == NoRoutes && n < |steps|
    requires forall i :: 0 <= i < n ==> !Requested(steps[i], k)
    requires Requested(steps[n], k) && steps[n].idx == h && steps[n].ok && k in ts[n + 1].incoming
    requires forall i :: n < i < |steps| ==> Undisturbed(ts[i], steps[i], ts[i + 1], k, h)
    ensures LifeOf(ts[|steps|], k)
         == Expected(h, SomeBodyEnd(steps[n + 1..], k), SomeResponseEnd(steps[n + 1..], k))
  {
    NeverRequested(ts, steps, k, n);
    FirstRequest(ts[n], steps[n], ts[n + 1], k);
    hide Next, LifeOf, Undisturbed;
    var later, rest := ts[n + 1..], steps[n + 1..];
    forall i | 0 <= i < |rest|
      ensures Next(later[i], rest[i], later[i + 1]) && Undisturbed(later[i], rest[i], later[i + 1], k, h)
    {
      assert later[i] == ts[n + 1 + i] && rest[i] == steps[n + 1 + i] && later[i + 1] == ts[n + 1 + i + 1];
    }
    EntryLivesUntilBothEnd(later, rest, k, h);
  }

  lemma FirstRequest(t: Tables, step: Step, u: Tables, k: RxidKey)
    requires Next(t, step, u) && Requested(step, k) && step.ok && k in u.incoming
    requires LifeOf(t, k) == Life(None, false, false)
    ensures LifeOf(u, k) == Life(Some(step.idx), false, false)
  {
    var m :| Collected(Recorded(t, k, step.idx, step.now), m) && u == m;
    CollectedIncoming(Recorded(t, k, step.idx, step.now), m, k);
    hide Collected;
  }
}
