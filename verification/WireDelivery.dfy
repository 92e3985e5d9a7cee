/**
  From the writer to the relay: what one writer puts on the wire, and what a
  reorder buffer at the other end passes on.
*/
module WireDelivery {
  import opened Wrappers
  import opened Frames
  import opened FlowOrdering
  import opened FlowDelivery
  import opened WriterGate

  // ---- One numbering -------------------------------------------------------------

  /** A connection's assigner over its frames: each flow numbered by place, as `Number` says. */
  method AssignAll(assigner: SeqAssigner, frames: seq<Frame>) returns (numbered: seq<Frame>)
    requires assigner.counters == map[]
    modifies assigner
    ensures numbered == Number(frames)
    ensures forall key :: assigner.Next(key) == |OfFlow(frames, key)|
  {
    numbered := [];
    for i := 0 to |frames|
      invariant numbered == Number(frames[..i])
      invariant forall key :: assigner.Next(key) == |OfFlow(frames[..i], key)|
    {
      assert frames[..i + 1][..i] == frames[..i];
      var f := assigner.Assign(frames[i]);
      numbered := numbered + [f];
    }
    assert frames[..|frames|] == frames;
  }

  /** No flow is used again once it has ended. */
  predicate OneLife(wire: seq<Frame>) {
    forall i, j :: 0 <= i < j < |wire| && IsTerminal(wire[i].kind) && IsFlow(wire[j].kind)
                   ==> wire[i].Key() != wire[j].Key()
  }

  lemma OneLifePrefix(wire: seq<Frame>, n: nat)
    requires OneLife(wire) && n <= |wire|
    ensures OneLife(wire[..n])
  {
  }

  lemma NotReused(wire: seq<Frame>, n: nat)
    requires OneLife(wire) && n < |wire| && IsFlow(wire[n].kind)
    ensures !HasEnded(wire[..n], wire[n].Key())
  {
    forall i | 0 <= i < n
      ensures !(IsTerminal(wire[..n][i].kind) && wire[..n][i].Key() == wire[n].Key())
    {
      assert wire[..n][i] == wire[i];
    }
  }

  function AllTaken(frames: seq<Frame>): (attempts: seq<Attempt>)
    ensures |attempts| == |frames|
  {
    seq(|frames|, i requires 0 <= i < |frames| => Attempt(frames[i], true))
  }

  predicate HasEnded(wire: seq<Frame>, key: FlowKey) {
    exists i :: 0 <= i < |wire| && IsTerminal(wire[i].kind) && wire[i].Key() == key
  }

  /** A writer nothing goes wrong with numbers as the assigner alone does. */
  lemma {:induction false} WriterNumbers(frames: seq<Frame>, cap: nat)
    requires cap > 0 && OneLife(frames)
    ensures InStep(Sends(AllTaken(frames), cap), frames)
  {
    if frames != [] {
      var n := |frames| - 1;
      var before, f := frames[..n], frames[n];
      OneLifePrefix(frames, n);
      WriterNumbers(before, cap);
      assert AllTaken(frames)[..n] == AllTaken(before);
      assert frames == before + [f];
      hide OneLife, HasEnded, Send, Number, OfFlow;
      NumbersSnoc(Sends(AllTaken(before), cap), before, f, cap);
    }
  }

  /** The writer stands where the assigner does. */
  ghost predicate InStep(s: Writer, frames: seq<Frame>) {
    s.wire == Number(frames)
    && (forall key :: key in s.ended ==> HasEnded(frames, key))
    && (forall key :: !HasEnded(frames, key) ==> s.Next(key) == |OfFlow(frames, key)|)
  }

  lemma NumbersSnoc(s: Writer, before: seq<Frame>, f: Frame, cap: nat)
    requires cap > 0 && InStep(s, before) && OneLife(before + [f])
    ensures InStep(Send(s, f, true, cap), before + [f])
  {
    var u, all := Send(s, f, true, cap), before + [f];
    assert all[..|before|] == before && all[|before|] == f;
    if IsFlow(f.kind) {
      NotEndedBefore(before, f, f.Key());
    }
    hide OneLife, HasEnded, OfFlow;
    forall key
      ensures key in u.ended ==> HasEnded(all, key)
      ensures !HasEnded(all, key) ==> u.Next(key) == |OfFlow(all, key)|
    {
      HasEndedSnoc(before, f, key);
      OfFlowSnoc(before, f, key);
      CounterIs(s, f, cap, key);
    }
  }

  /** What one send that is taken does to one flow's counter and record. */
  lemma CounterIs(s: Writer, f: Frame, cap: nat, key: FlowKey)
    requires cap > 0 && (IsFlow(f.kind) ==> f.Key() !in s.ended)
    ensures var u := Send(s, f, true, cap);
            (key in u.ended ==> key in s.ended || (IsTerminal(f.kind) && f.Key() == key))
            && (!(IsTerminal(f.kind) && f.Key() == key) ==>
                  u.Next(key) == s.Next(key) + if OnFlow(f, key) then 1 else 0)
  {
  }

  // ---- What one flow's frames on the wire are ---------------------------------------

  predicate Ascending(written: seq<Frame>) {
    forall i, j :: 0 <= i < j < |written| ==> written[i].num < written[j].num
  }

  /** However many frames were lost, the numbers of a flow only go up, and stay below its counter. */
  lemma {:induction false} WireAscends(attempts: seq<Attempt>, cap: nat, key: FlowKey)
    requires cap > 0 && OneLife(Sends(attempts, cap).wire)
    ensures var s := Sends(attempts, cap);
            Ascending(OfFlow(s.wire, key))
            && (!HasEnded(s.wire, key) ==> BelowAll(OfFlow(s.wire, key), s.Next(key)))
  {
    if attempts != [] {
      var n := |attempts| - 1;
      var s, u := Sends(attempts[..n], cap), Sends(attempts, cap);
      if u.wire != s.wire {
        assert u.wire[..|s.wire|] == s.wire;
        OneLifePrefix(u.wire, |s.wire|);
      }
      WireAscends(attempts[..n], cap, key);
      hide Ascending, OneLife, HasEnded, BelowAll;
      AscendsSnoc(s, attempts[n], cap, key);
    }
  }

  predicate BelowAll(frames: seq<Frame>, n: nat) {
    forall f :: f in frames ==> f.num < n
  }

  lemma AscendingSnoc(frames: seq<Frame>, f: Frame)
    requires Ascending(frames) && BelowAll(frames, f.num)
    ensures Ascending(frames + [f]) && BelowAll(frames + [f], f.num + 1)
  {
  }

  lemma BelowMore(frames: seq<Frame>, m: nat, n: nat)
    requires BelowAll(frames, m) && m <= n
    ensures BelowAll(frames, n)
  {
  }

  lemma OfFlowSnoc(wire: seq<Frame>, f: Frame, key: FlowKey)
    ensures OfFlow(wire + [f], key) == OfFlow(wire, key) + if OnFlow(f, key) then [f] else []
  {
    assert (wire + [f])[..|wire|] == wire;
  }

  lemma HasEndedSnoc(wire: seq<Frame>, f: Frame, key: FlowKey)
    ensures HasEnded(wire + [f], key) <==> HasEnded(wire, key) || (IsTerminal(f.kind) && f.Key() == key)
  {
    var all := wire + [f];
    assert all[|wire|] == f && forall i :: 0 <= i < |wire| ==> all[i] == wire[i];
    if HasEnded(wire, key) {
      var i :| 0 <= i < |wire| && IsTerminal(wire[i].kind) && wire[i].Key() == key;
      assert IsTerminal(all[i].kind);
    }
  }

  lemma NotEndedBefore(wire: seq<Frame>, f: Frame, key: FlowKey)
    requires OneLife(wire + [f]) && OnFlow(f, key)
    ensures !HasEnded(wire, key)
  {
    assert (wire + [f])[..|wire|] == wire;
    hide HasEnded;
    NotReused(wire + [f], |wire|);
  }

  /** A send moves a flow's counter on, or ends the flow, or leaves it alone. */
  lemma CounterRises(s: Writer, a: Attempt, cap: nat, key: FlowKey)
    requires cap > 0
    ensures var u := Send(s, a.frame, a.ok, cap);
            (u.wire == s.wire || u.wire == s.wire + [Numbering(s, a.frame)])
            && (u.Next(key) >= s.Next(key)
                || (u.wire == s.wire + [Numbering(s, a.frame)] && IsTerminal(a.frame.kind) && a.frame.Key() == key))
            && (u.wire == s.wire + [Numbering(s, a.frame)] && OnFlow(a.frame, key) && !IsTerminal(a.frame.kind) ==>
                  u.Next(key) == s.Next(key) + 1)
  {
    assert |s.wire + [Numbering(s, a.frame)]| > |s.wire|;
  }

  lemma AscendsSnoc(s: Writer, a: Attempt, cap: nat, key: FlowKey)
    requires cap > 0 && OneLife(Send(s, a.frame, a.ok, cap).wire) && Ascending(OfFlow(s.wire, key))
    requires !HasEnded(s.wire, key) ==> BelowAll(OfFlow(s.wire, key), s.Next(key))
    ensures var u := Send(s, a.frame, a.ok, cap);
            Ascending(OfFlow(u.wire, key)) && (!HasEnded(u.wire, key) ==> BelowAll(OfFlow(u.wire, key), u.Next(key)))
  {
    hide OneLife, HasEnded, Ascending, BelowAll, OfFlow, Send;
    var u, numbered := Send(s, a.frame, a.ok, cap), Numbering(s, a.frame);
    CounterRises(s, a, cap, key);
    OfFlowSnoc(s.wire, numbered, key);
    HasEndedSnoc(s.wire, numbered, key);
    assert OfFlow(s.wire, key) + [] == OfFlow(s.wire, key);
    if u.wire == s.wire + [numbered] && OnFlow(numbered, key) {
      NotEndedBefore(s.wire, numbered, key);
      AscendingSnoc(OfFlow(s.wire, key), numbered);
    } else if !HasEnded(u.wire, key) && !HasEnded(s.wire, key) {
      BelowMore(OfFlow(s.wire, key), s.Next(key), u.Next(key));
    }
  }

  lemma {:induction false} OneLifeCounts(wire: seq<Frame>, key: FlowKey)
    requires OneLife(wire)
    ensures !HasEnded(wire, key) ==> SinceTerminal(wire, key) == |OfFlow(wire, key)|
  {
    if wire != [] {
      var n := |wire| - 1;
      OneLifePrefix(wire, n);
      OneLifeCounts(wire[..n], key);
      if HasEnded(wire[..n], key) {
        var i :| 0 <= i < n && IsTerminal(wire[..n][i].kind) && wire[..n][i].Key() == key;
        assert wire[i] == wire[..n][i];
      }
    }
  }

  ghost predicate AllNumbered(wire: seq<Frame>) {
    forall key :: Numbered(OfFlow(wire, key))
  }

  /** Where no flow is used again, a gap-free wire is one whose flows are numbered by place. */
  lemma {:induction false} InSequenceIsNumbered(wire: seq<Frame>)
    requires OneLife(wire)
    ensures InSequence(wire) <==> AllNumbered(wire)
  {
    if wire == [] {
      assert forall key :: OfFlow(wire, key) == [];
    } else {
      var n := |wire| - 1;
      var before, last := wire[..n], wire[n];
      OneLifePrefix(wire, n);
      InSequenceIsNumbered(before);
      if IsFlow(last.kind) {
        OneLifeCounts(before, last.Key());
        NotReused(wire, n);
      }
      NumberedFlows(wire, n);
    }
  }

  lemma NumberedFlows(wire: seq<Frame>, n: nat)
    requires |wire| == n + 1
    ensures AllNumbered(wire)
            <==> AllNumbered(wire[..n])
                 && (IsFlow(wire[n].kind) ==> wire[n].num == |OfFlow(wire[..n], wire[n].Key())|)
  {
    var before, last := wire[..n], wire[n];
    forall key
      ensures Numbered(OfFlow(wire, key))
              <==> Numbered(OfFlow(before, key)) && (OnFlow(last, key) ==> last.num == |OfFlow(before, key)|)
    {
      NumberedSnoc(OfFlow(before, key), last);
      assert OfFlow(before, key) + [] == OfFlow(before, key);
    }
    if AllNumbered(wire) {
      assert Numbered(OfFlow(wire, last.Key()));
      assert OnFlow(last, last.Key()) <==> IsFlow(last.kind);
      forall key
        ensures Numbered(OfFlow(before, key))
      {
        assert Numbered(OfFlow(wire, key));
      }
    } else if AllNumbered(before) {
      var key :| !Numbered(OfFlow(wire, key));
      assert Numbered(OfFlow(before, key));
      assert key == last.Key();
    }
  }

  lemma NumberedSnoc(before: seq<Frame>, f: Frame)
    ensures Numbered(before + [f]) <==> Numbered(before) && f.num == |before|
  {
    var all := before + [f];
    assert forall i :: 0 <= i < |before| ==> all[i] == before[i];
    assert all[|before|] == f;
    if Numbered(all) {
      forall i | 0 <= i < |before|
        ensures before[i].num == i
      {
        assert all[i].num == i;
      }
    }
  }

  // ---- One flow at the other end ------------------------------------------------------

  /** What was delivered is what was written up to the first number that is missing. */
  predicate UpToGap(out: seq<Frame>, written: seq<Frame>) {
    Prefix(out, written) && Numbered(out) && (|out| < |written| ==> written[|out|].num > |out|)
  }

  lemma {:induction false} AtLeastPlace(written: seq<Frame>, i: nat)
    requires Ascending(written) && i < |written|
    ensures written[i].num >= i
  {
    if i > 0 {
      AtLeastPlace(written, i - 1);
    }
  }

  /** Numbers below m that are all there stand at their places. */
  lemma {:induction false} FirstPlaces(written: seq<Frame>, m: nat)
    requires Ascending(written) && forall n :: 0 <= n < m ==> n in Nums(written)
    ensures m <= |written| && forall i :: 0 <= i < m ==> written[i].num == i
    decreases m
  {
    if m > 0 {
      FirstPlaces(written, m - 1);
      assert m - 1 in Nums(written);
      var f :| f in written && f.num == m - 1;
      var k :| 0 <= k < |written| && written[k] == f;
      AtLeastPlace(written, k);
    }
  }

  lemma {:induction false} SameNums(written: seq<Frame>, arrived: seq<Frame>)
    requires Ascending(written) && multiset(arrived) == multiset(written)
    ensures NoRepeats(arrived) && Nums(arrived) == Nums(written)
    ensures forall f :: f in arrived <==> f in written
  {
    assert forall f :: f in arrived <==> f in multiset(arrived);
    assert forall f :: f in written <==> f in multiset(written);
    forall i, j | 0 <= i < j < |arrived|
      ensures arrived[i].num != arrived[j].num
    {
      if arrived[i].num == arrived[j].num {
        assert arrived[i] in written && arrived[j] in written;
        TwiceCounts(arrived, i, j);
        DistinctCounts(written, arrived[i]);
      }
    }
  }

  /** A flow that lost frames, arriving in any bounded order, is delivered up to the first loss. */
  lemma {:induction false} DeliveredUpToGap(written: seq<Frame>, arrived: seq<Frame>, limit: nat)
    requires Ascending(written) && multiset(arrived) == multiset(written)
    ensures RunFlow(arrived, limit).Some? <==> Bounded(arrived, limit)
    ensures RunFlow(arrived, limit).Some? ==> UpToGap(RunFlow(arrived, limit).value.out, written)
  {
    SameNums(written, arrived);
    RunAcceptsIff(arrived, limit);
    if RunFlow(arrived, limit).Some? {
      var r := RunFlow(arrived, limit).value;
      RunIsFaithful(arrived, limit);
      WaitingIsHeld(arrived, r);
      StopsAtGap(written, r.out);
    }
  }

  lemma StopsAtGap(written: seq<Frame>, out: seq<Frame>)
    requires Ascending(written) && Numbered(out) && forall f :: f in out ==> f in written
    requires (forall n :: 0 <= n < |out| ==> n in Nums(written)) && |out| !in Nums(written)
    ensures UpToGap(out, written)
  {
    FirstPlaces(written, |out|);
    forall i | 0 <= i < |out|
      ensures out[i] == written[i]
    {
      assert out[i] in written;
    }
    if |out| < |written| {
      assert written[|out|] in written;
      assert |out| > 0 ==> written[|out| - 1].num < written[|out|].num;
    }
  }

  // ---- The writer and the reader ----------------------------------------------------------

  /** Every flow was delivered up to its first loss. */
  ghost predicate DeliversUpToGaps(wire: seq<Frame>, run: BufferRun) {
    forall key :: UpToGap(OfFlow(run.out, key), OfFlow(wire, key))
  }

  /**
    From a writer that may be refused to a reader that takes frames in any order:
    a wire on which no flow is used again, permuted and interleaved anyhow, passes
    the reorder buffer exactly when no flow has too many waiting.  Each flow is
    then delivered as written up to its first loss, and all of every flow is
    delivered exactly when the writer skipped no number.
  */
  lemma {:induction false} WriterToReader(attempts: seq<Attempt>, cap: nat, arrived: seq<Frame>, limit: nat)
    requires cap > 0 && OneLife(Sends(attempts, cap).wire)
    requires multiset(arrived) == multiset(Sends(attempts, cap).wire)
    ensures RunAll(arrived, limit).Some? <==> forall key :: Bounded(OfFlow(arrived, key), limit)
    ensures RunAll(arrived, limit).Some? ==>
              DeliversUpToGaps(Sends(attempts, cap).wire, RunAll(arrived, limit).value)
              && (DeliversAll(Sends(attempts, cap).wire, RunAll(arrived, limit).value)
                  <==> forall i, j :: 0 <= i < j < |attempts| ==> !Skips(attempts, i, j, cap))
  {
    var wire := Sends(attempts, cap).wire;
    hide OneLife;
    forall key
      ensures RunFlow(OfFlow(arrived, key), limit).Some? <==> Bounded(OfFlow(arrived, key), limit)
    {
      FlowAtReader(attempts, cap, arrived, limit, key);
    }
    RunAllAcceptsIff(arrived, limit);
    if RunAll(arrived, limit).Some? {
      var run := RunAll(arrived, limit).value;
      forall key
        ensures UpToGap(OfFlow(run.out, key), OfFlow(wire, key))
        ensures OfFlow(run.out, key) == OfFlow(wire, key) && run.FlowOf(key).buffer == map[]
                <==> Numbered(OfFlow(wire, key))
      {
        FlowAtReader(attempts, cap, arrived, limit, key);
        FlowsAreIndependent(arrived, limit, key);
      }
      InSequenceIsNumbered(wire);
      InSequenceIff(attempts, cap);
      hide OfFlow, Numbered, Skips;
      if DeliversAll(wire, run) {
        forall key
          ensures Numbered(OfFlow(wire, key))
        {
          assert OfFlow(run.out, key) == OfFlow(wire, key);
        }
      } else if AllNumbered(wire) {
        forall key
          ensures OfFlow(run.out, key) == OfFlow(wire, key) && run.FlowOf(key).buffer == map[]
        {
          assert Numbered(OfFlow(wire, key));
        }
      }
    }
  }

  lemma {:induction false} FlowAtReader(attempts: seq<Attempt>, cap: nat, arrived: seq<Frame>, limit: nat, key: FlowKey)
    requires cap > 0 && OneLife(Sends(attempts, cap).wire)
    requires multiset(arrived) == multiset(Sends(attempts, cap).wire)
    ensures var mine, written := RunFlow(OfFlow(arrived, key), limit), OfFlow(Sends(attempts, cap).wire, key);
            (mine.Some? <==> Bounded(OfFlow(arrived, key), limit))
            && (mine.Some? ==>
                  UpToGap(mine.value.out, written)
                  && (mine.value.out == written && mine.value.state.buffer == map[] <==> Numbered(written)))
  {
    var wire := Sends(attempts, cap).wire;
    WireAscends(attempts, cap, key);
    FlowPermutation(arrived, wire, key);
    DeliveredUpToGap(OfFlow(wire, key), OfFlow(arrived, key), limit);
    if Numbered(OfFlow(wire, key)) {
      PermutationIsUndone(OfFlow(wire, key), OfFlow(arrived, key), limit);
    }
  }

  /** The smallest failing run again, at the reader: the frame that was taken is never passed on. */
  lemma NeverPassedOn(lost: Frame, next: Frame, cap: nat, limit: nat)
    requires cap > 0 && limit > 0 && IsFlow(lost.kind) && IsFlow(next.kind) && lost.Key() == next.Key()
    ensures var wire := Sends([Attempt(lost, false), Attempt(next, true)], cap).wire;
            |wire| == 1 && RunAll(wire, limit).Some? && RunAll(wire, limit).value.out == []
  {
    RefusedThenTaken(lost, next, cap);
    var wire := Sends([Attempt(lost, false), Attempt(next, true)], cap).wire;
    assert wire[..0] == [];
    assert RunAll(wire[..0], limit) == Some(BufferRun(map[], []));
  }

  // ---- Flows used again ---------------------------------------------------------------------

  function EndedIn(frames: seq<Frame>): set<FlowKey> {
    set f | f in frames && IsTerminal(f.kind) :: f.Key()
  }

  /** One arrival at the relay, which forgets a flow when it passes on the flow's terminal. */
  function RelayStep(run: BufferRun, f: Frame, limit: nat): (r: Option<BufferRun>)
    requires AllOk(run.flows)
    ensures r.Some? ==> AllOk(r.value.flows)
  {
    if !IsFlow(f.kind) then Some(run.(out := run.out + [f]))
    else
      match AcceptFrame(run.FlowOf(f.Key()), f, limit)
      case Refused(_) => None
      case Ready(after, frames) =>
        AcceptKeepsState(run.FlowOf(f.Key()), f, limit);
        Some(BufferRun(run.flows[f.Key() := after] - EndedIn(frames), run.out + frames))
  }

  function Relayed(arrived: seq<Frame>, limit: nat): (r: Option<BufferRun>)
    ensures r.Some? ==> AllOk(r.value.flows)
  {
    if arrived == [] then Some(BufferRun(map[], []))
    else
      var before := Relayed(arrived[..|arrived| - 1], limit);
      if before.None? then None else RelayStep(before.value, arrived[|arrived| - 1], limit)
  }

  lemma {:induction false} RelayedStops(arrived: seq<Frame>, n: nat, limit: nat)
    requires n <= |arrived| && Relayed(arrived[..n], limit).None?
    ensures Relayed(arrived, limit).None?
  {
    if n < |arrived| {
      assert arrived[..|arrived| - 1][..n] == arrived[..n];
      RelayedStops(arrived[..|arrived| - 1], n, limit);
    } else {
      assert arrived[..n] == arrived;
    }
  }

  /** The relay's pump over the frames it hands to its buffer; the first refusal ends it. */
  method Pump(reorderBuffer: ReorderBuffer, arrived: seq<Frame>) returns (written: seq<Frame>, failed: bool)
    requires reorderBuffer.Valid() && reorderBuffer.flows == map[]
    modifies reorderBuffer
    ensures var r := Relayed(arrived, reorderBuffer.maxBufferPerFlow);
            if failed then r.None? else r == Some(BufferRun(reorderBuffer.flows, written))
  {
    written := [];
    ghost var limit := reorderBuffer.maxBufferPerFlow;
    for i := 0 to |arrived|
      invariant reorderBuffer.Valid()
      invariant Relayed(arrived[..i], limit) == Some(BufferRun(reorderBuffer.flows, written))
    {
      assert arrived[..i + 1][..i] == arrived[..i];
      var readyFrames := reorderBuffer.Accept(arrived[i]);
      if readyFrames.Err? {
        RelayedStops(arrived, i + 1, limit);
        return written, true;
      }
      ghost var flows := reorderBuffer.flows;
      written := Forward(reorderBuffer, readyFrames.value, written);
      assert !IsFlow(arrived[i].kind) ==> EndedIn([arrived[i]]) == {} && reorderBuffer.flows == flows;
    }
    assert arrived[..|arrived|] == arrived;
    return written, false;
  }

  /** What a delivery brings, forwarded frame by frame. */
  method Forward(reorderBuffer: ReorderBuffer, ready: seq<Frame>, before: seq<Frame>) returns (written: seq<Frame>)
    requires reorderBuffer.Valid()
    modifies reorderBuffer
    ensures reorderBuffer.Valid()
    ensures written == before + ready && reorderBuffer.flows == old(reorderBuffer.flows) - EndedIn(ready)
  {
    written := before;
    for k := 0 to |ready|
      invariant reorderBuffer.Valid()
      invariant written == before + ready[..k]
      invariant reorderBuffer.flows == old(reorderBuffer.flows) - EndedIn(ready[..k])
    {
      assert ready[..k + 1] == ready[..k] + [ready[k]];
      if IsTerminal(ready[k].kind) {
        reorderBuffer.CleanupFlow(ready[k].Key());
        assert EndedIn(ready[..k + 1]) == EndedIn(ready[..k]) + {ready[k].Key()};
      } else {
        assert EndedIn(ready[..k + 1]) == EndedIn(ready[..k]);
      }
      written := written + [ready[k]];
    }
    assert ready[..|ready|] == ready;
  }

  /** Each frame is passed on as it comes. */
  ghost predicate PassesAtOnce(wire: seq<Frame>, limit: nat) {
    forall k :: 0 <= k <= |wire| ==>
      Relayed(wire[..k], limit).Some? && Relayed(wire[..k], limit).value.out == wire[..k]
  }

  /** After frames that all passed at once, each flow expects its place since its last terminal and holds nothing. */
  ghost predicate Caught(wire: seq<Frame>, run: BufferRun) {
    run.out == wire
    && forall key :: run.FlowOf(key) == FlowState(Reorder(SinceTerminal(wire, key), []), map[])
  }

  lemma {:induction false} PassesAtOnceIff(wire: seq<Frame>, limit: nat)
    ensures PassesAtOnce(wire, limit) <==> InSequence(wire)
    ensures InSequence(wire) ==> Relayed(wire, limit).Some? && Caught(wire, Relayed(wire, limit).value)
  {
    if wire == [] {
      assert wire[..0] == [];
    } else {
      var n := |wire| - 1;
      var before, f := wire[..n], wire[n];
      assert wire == before + [f];
      PassesAtOnceIff(before, limit);
      PassesSnoc(wire, n, limit);
      if InSequence(before) {
        OneMorePasses(before, Relayed(before, limit).value, f, limit);
      }
    }
  }

  lemma PassesSnoc(wire: seq<Frame>, n: nat, limit: nat)
    requires |wire| == n + 1
    ensures PassesAtOnce(wire, limit)
            <==> PassesAtOnce(wire[..n], limit) && Relayed(wire, limit).Some? && Relayed(wire, limit).value.out == wire
  {
    assert wire[..n + 1] == wire;
    assert forall k :: 0 <= k <= n ==> wire[..n][..k] == wire[..k];
    hide Relayed;
    if PassesAtOnce(wire, limit) {
      forall k | 0 <= k <= n
        ensures Relayed(wire[..n][..k], limit).Some? && Relayed(wire[..n][..k], limit).value.out == wire[..n][..k]
      {
        assert Relayed(wire[..k], limit).Some?;
      }
      assert Relayed(wire[..n + 1], limit).Some?;
    }
    if PassesAtOnce(wire[..n], limit) && Relayed(wire, limit).Some? && Relayed(wire, limit).value.out == wire {
      forall k | 0 <= k <= n + 1
        ensures Relayed(wire[..k], limit).Some? && Relayed(wire[..k], limit).value.out == wire[..k]
      {
        if k <= n {
          assert Relayed(wire[..n][..k], limit).Some?;
        }
      }
    }
  }

  /** One more frame is passed on at once exactly when it has its place, and leaves the relay caught up. */
  lemma OneMorePasses(before: seq<Frame>, run: BufferRun, f: Frame, limit: nat)
    requires AllOk(run.flows) && Caught(before, run)
    ensures var r := RelayStep(run, f, limit);
            r.Some? && r.value.out == before + [f]
            <==> (IsFlow(f.kind) ==> f.num == SinceTerminal(before, f.Key()))
    ensures (IsFlow(f.kind) ==> f.num == SinceTerminal(before, f.Key()))
            ==> Caught(before + [f], RelayStep(run, f, limit).value)
  {
    hide StateOk, SinceTerminal;
    if IsFlow(f.kind) {
      assert run.FlowOf(f.Key()) == FlowState(Reorder(SinceTerminal(before, f.Key()), []), map[]);
      AcceptAtRest(SinceTerminal(before, f.Key()), f, limit);
      assert EndedIn([f]) == if IsTerminal(f.kind) then {f.Key()} else {};
      assert before + [] == before;
    }
    hide AcceptFrame, EndedIn;
    if IsFlow(f.kind) ==> f.num == SinceTerminal(before, f.Key()) {
      var after := RelayStep(run, f, limit).value;
      forall key
        ensures after.FlowOf(key) == FlowState(Reorder(SinceTerminal(before + [f], key), []), map[])
      {
        assert run.FlowOf(key) == FlowState(Reorder(SinceTerminal(before, key), []), map[]);
        SinceTerminalSnoc(before, f, key);
      }
    }
  }

  /**
    The same over flows used again and again, on a channel that keeps order:
    each frame is passed on as it comes exactly when the writer skipped no number.
  */
  lemma WriterToRelay(attempts: seq<Attempt>, cap: nat, limit: nat)
    requires cap > 0
    ensures PassesAtOnce(Sends(attempts, cap).wire, limit)
            <==> forall i, j :: 0 <= i < j < |attempts| ==> !Skips(attempts, i, j, cap)
  {
    PassesAtOnceIff(Sends(attempts, cap).wire, limit);
    InSequenceIff(attempts, cap);
  }
}
