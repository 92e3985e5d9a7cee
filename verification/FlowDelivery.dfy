/**
  Whole runs of the reorder buffer, against the order the frames were written in.
  What the buffer delivers is compared with the frames themselves, not their numbers.
*/
module FlowDelivery {
  import opened Wrappers
  import opened Frames
  import opened FlowOrdering

  datatype FlowRun = FlowRun(state: FlowState, out: seq<Frame>)

  /** One flow from its first frame on; None once a frame was refused. */
  function RunFlow(arrived: seq<Frame>, limit: nat): (r: Option<FlowRun>)
    ensures r.Some? ==> StateOk(r.value.state)
  {
    if arrived == [] then Some(FlowRun(Fresh, []))
    else
      match RunFlow(arrived[..|arrived| - 1], limit)
      case None => None
      case Some(FlowRun(state, out)) =>
        var f := arrived[|arrived| - 1];
        match AcceptFrame(state, f, limit)
        case Refused(_) => None
        case Ready(after, frames) =>
          AcceptKeepsState(state, f, limit);
          Some(FlowRun(after, out + frames))
  }

  function Nums(frames: seq<Frame>): set<nat> {
    set f | f in frames :: f.num
  }

  /** The numbers that arrived with an earlier one still missing. */
  function Waiting(frames: seq<Frame>): (w: set<nat>) {
    set n | n in Nums(frames) && exists m: nat {:trigger m in Nums(frames)} :: m < n && m !in Nums(frames)
  }

  /** Everything below `next` was delivered, in order and from what arrived; everything past it waits. */
  ghost predicate Faithful(arrived: seq<Frame>, r: FlowRun) {
    |r.out| == r.state.order.expected
    && (forall i :: 0 <= i < |r.out| ==> r.out[i] in arrived && r.out[i].num == i)
    && (forall n :: n in r.state.buffer ==> r.state.buffer[n] in arrived)
    && (forall n: nat :: n in Nums(arrived) <==> n < |r.out| || n in r.state.buffer)
  }

  lemma NumsSnoc(arrived: seq<Frame>, f: Frame)
    ensures Nums(arrived + [f]) == Nums(arrived) + {f.num}
  {
    assert (arrived + [f])[|arrived|] == f;
    forall n | n in Nums(arrived)
      ensures n in Nums(arrived + [f])
    {
      var g :| g in arrived && g.num == n;
      assert g in arrived + [f];
    }
  }

  /** A run taken out of the buffer continues what was delivered. */
  lemma DeliveredPlaces(arrived: seq<Frame>, r: FlowRun, f: Frame, seqs: seq<nat>)
    requires StateOk(r.state) && Faithful(arrived, r) && f.num == |r.out| && seqs == Range(|r.out|, |seqs|)
    requires forall i :: 0 <= i < |seqs| ==> seqs[i] in r.state.buffer[f.num := f]
    ensures var out := r.out + Collect(r.state.buffer[f.num := f], seqs);
            |out| == |r.out| + |seqs|
            && forall i :: 0 <= i < |out| ==> out[i] in arrived + [f] && out[i].num == i
  {
    hide Ordered;
    RangeAt(|r.out|, |seqs|);
    var whole := r.state.buffer[f.num := f];
    var out := r.out + Collect(whole, seqs);
    forall i | 0 <= i < |out|
      ensures out[i] in arrived + [f] && out[i].num == i
    {
      if i >= |r.out| {
        assert out[i] == whole[seqs[i - |r.out|]];
      }
    }
  }

  /** And accounts for the same numbers together with what is left. */
  lemma {:induction false} DeliveredNums(arrived: seq<Frame>, r: FlowRun, f: Frame, seqs: seq<nat>)
    requires Faithful(arrived, r) && f.num == |r.out| && seqs == Range(|r.out|, |seqs|) && seqs != []
    requires forall i :: 0 <= i < |seqs| ==> seqs[i] in r.state.buffer[f.num := f]
    ensures forall n: nat :: n in Nums(arrived + [f])
                             <==> n < |r.out| + |seqs| || n in r.state.buffer[f.num := f] - Members(seqs)
  {
    NumsSnoc(arrived, f);
    RangeMembers(|r.out|, |seqs|);
    RangeAt(|r.out|, |seqs|);
    hide Range;
    forall n: nat
      ensures n in Nums(arrived + [f])
              <==> n < |r.out| + |seqs| || n in r.state.buffer[f.num := f] - Members(seqs)
    {
      assert n in Members(seqs) <==> |r.out| <= n < |r.out| + |seqs|;
      if |r.out| <= n < |r.out| + |seqs| {
        assert seqs[n - |r.out|] == n;
      }
    }
  }

  lemma FaithfulDelivery(arrived: seq<Frame>, r: FlowRun, f: Frame, limit: nat)
    requires StateOk(r.state) && Faithful(arrived, r) && f.num == r.state.order.expected
    ensures var o := AcceptFrame(r.state, f, limit);
            o.Ready? && Faithful(arrived + [f], FlowRun(o.state, r.out + o.frames))
  {
    ReleaseHolds(r.state, f, limit);
    DeliverIsNextRun(r.state.order, limit);
    var a := AcceptSeq(r.state.order, f.num, limit);
    DeliveredPlaces(arrived, r, f, a.seqs);
    DeliveredNums(arrived, r, f, a.seqs);
    hide Ordered, Range, Members, Nums;
    var o := AcceptFrame(r.state, f, limit);
    assert o.state == FlowState(a.order, r.state.buffer[f.num := f] - Members(a.seqs));
    assert o.frames == Collect(r.state.buffer[f.num := f], a.seqs);
    forall n | n in o.state.buffer
      ensures o.state.buffer[n] in arrived + [f]
    {
    }
  }

  lemma FaithfulHold(arrived: seq<Frame>, r: FlowRun, f: Frame, limit: nat)
    requires StateOk(r.state) && Faithful(arrived, r) && f.num != r.state.order.expected
    requires AcceptFrame(r.state, f, limit).Ready?
    ensures var o := AcceptFrame(r.state, f, limit);
            o.frames == [] && Faithful(arrived + [f], FlowRun(o.state, r.out + o.frames))
  {
    NumsSnoc(arrived, f);
    assert r.out + [] == r.out;
  }

  lemma {:induction false} RunIsFaithful(arrived: seq<Frame>, limit: nat)
    requires RunFlow(arrived, limit).Some?
    ensures Faithful(arrived, RunFlow(arrived, limit).value)
  {
    if arrived != [] {
      var before, f := arrived[..|arrived| - 1], arrived[|arrived| - 1];
      RunIsFaithful(before, limit);
      var r := RunFlow(before, limit).value;
      assert arrived == before + [f];
      if f.num == r.state.order.expected {
        FaithfulDelivery(before, r, f, limit);
      } else {
        FaithfulHold(before, r, f, limit);
      }
    }
  }

  /** A number that never comes blocks its flow: nothing at or past it is delivered. */
  lemma NothingPastAGap(arrived: seq<Frame>, limit: nat, n: nat)
    requires RunFlow(arrived, limit).Some? && n !in Nums(arrived)
    ensures |RunFlow(arrived, limit).value.out| <= n
    ensures forall f :: f in RunFlow(arrived, limit).value.out ==> f.num < n
  {
    RunIsFaithful(arrived, limit);
  }

  /** What waits, stated over the arrivals alone, is what the buffer holds. */
  lemma WaitingIsHeld(arrived: seq<Frame>, r: FlowRun)
    requires StateOk(r.state) && Faithful(arrived, r)
    ensures Waiting(arrived) == Members(r.state.order.held) && |Waiting(arrived)| == |r.state.order.held|
    ensures r.state.order.expected !in Nums(arrived)
  {
    AboveMembers(r.state.order.expected, r.state.order.held);
    AboveSize(r.state.order.expected, r.state.order.held);
    assert r.state.order.expected !in Nums(arrived);
  }

  /** A flow that holds nothing passes on the frame it expects and no other. */
  lemma AcceptAtRest(n: nat, f: Frame, limit: nat)
    ensures var o := AcceptFrame(FlowState(Reorder(n, []), map[]), f, limit);
            if f.num == n then o == Ready(FlowState(Reorder(n + 1, []), map[]), [f])
            else o.Refused? || o.frames == []
  {
    var o := AcceptFrame(FlowState(Reorder(n, []), map[]), f, limit);
    if f.num == n {
      assert Members([f.num]) == {f.num};
      assert o.state.buffer == map[];
      assert o.frames == [f];
    }
  }

  // ---- When a run is refused ---------------------------------------------------

  predicate NoRepeats(frames: seq<Frame>) {
    forall i, j :: 0 <= i < j < |frames| ==> frames[i].num != frames[j].num
  }

  /** At no moment do more than `limit` numbers wait. */
  predicate Bounded(frames: seq<Frame>, limit: nat) {
    forall k :: 0 <= k <= |frames| ==> |Waiting(frames[..k])| <= limit
  }

  lemma BoundedSnoc(before: seq<Frame>, f: Frame, limit: nat)
    ensures Bounded(before + [f], limit) <==> Bounded(before, limit) && |Waiting(before + [f])| <= limit
  {
    var all := before + [f];
    forall k | 0 <= k <= |before|
      ensures all[..k] == before[..k]
    {
    }
    assert all[..|all|] == all;
    assert Bounded(all, limit) ==> |Waiting(all[..|all|])| <= limit;
    if Bounded(all, limit) {
      forall k | 0 <= k <= |before|
        ensures |Waiting(before[..k])| <= limit
      {
        assert |Waiting(all[..k])| <= limit;
      }
    }
  }

  lemma NoRepeatsSnoc(before: seq<Frame>, f: Frame)
    ensures NoRepeats(before + [f]) <==> NoRepeats(before) && f.num !in Nums(before)
  {
    var all := before + [f];
    if NoRepeats(all) {
      forall i | 0 <= i < |before|
        ensures before[i].num != f.num
      {
        assert all[i] == before[i] && all[|before|] == f;
      }
      forall i, j | 0 <= i < j < |before|
        ensures before[i].num != before[j].num
      {
        assert all[i] == before[i] && all[j] == before[j];
      }
    }
    if NoRepeats(before) && f.num !in Nums(before) {
      forall i, j | 0 <= i < j < |all|
        ensures all[i].num != all[j].num
      {
        assert before[i] in before;
        assert before[i].num in Nums(before);
      }
    }
  }

  /** One more frame is refused exactly when it repeats a number or makes too many wait. */
  lemma AcceptsOneMoreIff(before: seq<Frame>, r: FlowRun, f: Frame, limit: nat)
    requires StateOk(r.state) && Faithful(before, r) && |Waiting(before)| <= limit
    ensures AcceptFrame(r.state, f, limit).Ready?
            <==> f.num !in Nums(before) && |Waiting(before + [f])| <= limit
  {
    WaitingIsHeld(before, r);
    var o := AcceptFrame(r.state, f, limit);
    if o.Ready? {
      AcceptKeepsState(r.state, f, limit);
      if f.num == r.state.order.expected {
        FaithfulDelivery(before, r, f, limit);
        DeliverIsNextRun(r.state.order, limit);
      } else {
        FaithfulHold(before, r, f, limit);
        InsertKeepsOrder(r.state.order.expected, f.num, r.state.order.held);
        assert Members(o.state.order.held) == Waiting(before) + {f.num};
      }
      WaitingIsHeld(before + [f], FlowRun(o.state, r.out + o.frames));
    } else if f.num !in Nums(before) {
      OverflowIsOneTooMany(before, r, f, limit);
    }
  }

  lemma OverflowIsOneTooMany(before: seq<Frame>, r: FlowRun, f: Frame, limit: nat)
    requires StateOk(r.state) && Faithful(before, r) && |Waiting(before)| <= limit
    requires f.num !in Nums(before) && AcceptFrame(r.state, f, limit).Refused?
    ensures |Waiting(before + [f])| > limit
  {
    WaitingIsHeld(before, r);
    AboveMembers(r.state.order.expected, r.state.order.held);
    WaitingGains(before, f, r.state.order.expected);
  }

  lemma WaitingGains(before: seq<Frame>, f: Frame, missing: nat)
    requires f.num !in Nums(before) && missing !in Nums(before) && f.num > missing
    requires forall n :: n in Waiting(before) ==> n > missing
    ensures Waiting(before + [f]) == Waiting(before) + {f.num} && f.num !in Waiting(before)
  {
    NumsSnoc(before, f);
    assert missing !in Nums(before + [f]);
    forall n | n in Waiting(before + [f])
      ensures n in Waiting(before) + {f.num}
    {
      var m: nat :| m < n && m !in Nums(before + [f]);
      assert m !in Nums(before);
    }
  }

  /**
    The buffer takes a whole run of arrivals exactly when no number repeats and
    never more than the limit wait for a missing one.
  */
  lemma {:induction false} RunAcceptsIff(arrived: seq<Frame>, limit: nat)
    ensures RunFlow(arrived, limit).Some? <==> NoRepeats(arrived) && Bounded(arrived, limit)
  {
    if arrived == [] {
      assert Waiting([]) == {};
    } else {
      var before, f := arrived[..|arrived| - 1], arrived[|arrived| - 1];
      assert arrived == before + [f];
      RunAcceptsIff(before, limit);
      BoundedSnoc(before, f, limit);
      NoRepeatsSnoc(before, f);
      if RunFlow(before, limit).Some? {
        RunIsFaithful(before, limit);
        assert before[..|before|] == before;
        AcceptsOneMoreIff(before, RunFlow(before, limit).value, f, limit);
      }
    }
  }

  /**
    What a refusal says: the frame's number was passed on already, waits already, or is
    new and as many as the limit wait.
  */
  lemma RefusalSays(arrived: seq<Frame>, f: Frame, limit: nat)
    requires RunFlow(arrived, limit).Some?
    ensures var run := RunFlow(arrived, limit).value;
            match AcceptFrame(run.state, f, limit)
            case Ready(_, _) =>
              f.num !in Nums(arrived) && (f.num == |run.out| || |Waiting(arrived)| < limit)
            case Refused(why) =>
              (why == Stale || why == Duplicate || why == Overflow)
              && (why == Stale <==> exists i :: 0 <= i < |run.out| && run.out[i].num == f.num)
              && (why == Duplicate <==> f.num in Waiting(arrived))
              && (why == Overflow ==> f.num !in Nums(arrived) && |Waiting(arrived)| >= limit)
  {
    RunIsFaithful(arrived, limit);
    var run := RunFlow(arrived, limit).value;
    WaitingIsHeld(arrived, run);
    AboveMembers(run.state.order.expected, run.state.order.held);
    if f.num < |run.out| {
      assert run.out[f.num].num == f.num;
    }
  }

  // ---- One flow written and delivered ------------------------------------------

  /** Frames numbered by their place. */
  predicate Numbered(written: seq<Frame>) {
    forall i :: 0 <= i < |written| ==> written[i].num == i
  }

  lemma {:induction false} DistinctCounts<T(!new)>(s: seq<T>, x: T)
    requires forall i, j :: 0 <= i < j < |s| ==> s[i] != s[j]
    ensures multiset(s)[x] <= 1
  {
    if s != [] {
      var n := |s| - 1;
      DistinctCounts(s[..n], x);
      assert s == s[..n] + [s[n]];
      assert s[n] !in s[..n];
    }
  }

  lemma TwiceCounts<T>(s: seq<T>, i: nat, j: nat)
    requires i < j < |s| && s[i] == s[j]
    ensures multiset(s)[s[i]] >= 2
  {
    assert s == s[..j] + [s[j]] + s[j + 1..];
    assert s[..j][i] == s[i];
    assert s[i] in multiset(s[..j]);
  }

  lemma PermutationNumbers(written: seq<Frame>, arrived: seq<Frame>)
    requires Numbered(written) && multiset(arrived) == multiset(written)
    ensures NoRepeats(arrived) && forall f :: f in arrived ==> f in written
    ensures forall n :: n in Nums(arrived) <==> 0 <= n < |written|
  {
    assert forall f :: f in arrived <==> f in multiset(arrived);
    assert forall f :: f in written <==> f in multiset(written);
    forall i, j | 0 <= i < j < |arrived|
      ensures arrived[i].num != arrived[j].num
    {
      if arrived[i].num == arrived[j].num {
        assert arrived[i] in written && arrived[j] in written;
        TwiceCounts(arrived, i, j);
        DistinctCounts(written, arrived[i]);
      }
    }
    forall n | 0 <= n < |written|
      ensures n in Nums(arrived)
    {
      assert written[n] in arrived;
    }
  }

  /** Any bounded permutation of a numbered flow is undone: every frame once, in the order written. */
  lemma PermutationIsUndone(written: seq<Frame>, arrived: seq<Frame>, limit: nat)
    requires Numbered(written) && multiset(arrived) == multiset(written)
    ensures RunFlow(arrived, limit).Some? <==> Bounded(arrived, limit)
    ensures Bounded(arrived, limit)
            ==> RunFlow(arrived, limit).value.out == written && RunFlow(arrived, limit).value.state.buffer == map[]
  {
    PermutationNumbers(written, arrived);
    RunAcceptsIff(arrived, limit);
    if Bounded(arrived, limit) {
      RunIsFaithful(arrived, limit);
      var r := RunFlow(arrived, limit).value;
      WaitingIsHeld(arrived, r);
      DeliveredIsWritten(written, arrived, r);
      NothingHeldPast(written, arrived, r);
    }
  }

  /** At every moment, what was delivered is a prefix of what was written. */
  lemma DeliveredIsWritten(written: seq<Frame>, arrived: seq<Frame>, r: FlowRun)
    requires Numbered(written) && Faithful(arrived, r)
    requires forall f :: f in arrived ==> f in written
    ensures |r.out| <= |written| && r.out == written[..|r.out|]
  {
    if r.out != [] {
      assert r.out[|r.out| - 1] in written;
    }
    forall i | 0 <= i < |r.out|
      ensures r.out[i] == written[i]
    {
      assert r.out[i] in written;
    }
  }

  /** So forgetting a flow once its last frame was delivered forgets nothing that was held. */
  lemma CleanupLosesNothing(written: seq<Frame>, arrived: seq<Frame>, limit: nat)
    requires Numbered(written) && written != [] && RunFlow(arrived, limit).Some?
    requires forall f :: f in arrived ==> f in written
    requires written[|written| - 1] in RunFlow(arrived, limit).value.out
    ensures RunFlow(arrived, limit).value.out == written && RunFlow(arrived, limit).value.state.buffer == map[]
  {
    RunIsFaithful(arrived, limit);
    var r := RunFlow(arrived, limit).value;
    DeliveredIsWritten(written, arrived, r);
    NothingHeldPast(written, arrived, r);
  }

  /** Held numbers were written, so there are none past the last number. */
  lemma NothingHeldPast(written: seq<Frame>, arrived: seq<Frame>, r: FlowRun)
    requires Numbered(written) && StateOk(r.state) && Faithful(arrived, r) && |r.out| == |written|
    requires forall f :: f in arrived ==> f in written
    ensures r.state.buffer == map[]
  {
    forall n | n in r.state.buffer
      ensures n < |written|
    {
      assert r.state.buffer[n] in written;
    }
    AboveMembers(r.state.order.expected, r.state.order.held);
    assert r.state.buffer.Keys == {};
  }

  // ---- Every flow at once --------------------------------------------------------

  datatype BufferRun = BufferRun(flows: map<FlowKey, FlowState>, out: seq<Frame>) {
    function FlowOf(key: FlowKey): FlowState {
      if key in flows then flows[key] else Fresh
    }
  }

  ghost predicate AllOk(flows: map<FlowKey, FlowState>) {
    forall k :: k in flows ==> StateOk(flows[k])
  }

  /** The whole buffer from its first frame on, as `ReorderBuffer.Accept` moves it. */
  function RunAll(arrived: seq<Frame>, limit: nat): (r: Option<BufferRun>)
    ensures r.Some? ==> AllOk(r.value.flows)
  {
    if arrived == [] then Some(BufferRun(map[], []))
    else
      match RunAll(arrived[..|arrived| - 1], limit)
      case None => None
      case Some(run) =>
        var f := arrived[|arrived| - 1];
        if !IsFlow(f.kind) then Some(run.(out := run.out + [f]))
        else
          match AcceptFrame(run.FlowOf(f.Key()), f, limit)
          case Refused(_) => None
          case Ready(after, frames) =>
            AcceptKeepsState(run.FlowOf(f.Key()), f, limit);
            Some(BufferRun(run.flows[f.Key() := after], run.out + frames))
  }

  function Unordered(frames: seq<Frame>): seq<Frame> {
    if frames == [] then []
    else
      var last := frames[|frames| - 1];
      Unordered(frames[..|frames| - 1]) + if IsFlow(last.kind) then [] else [last]
  }

  predicate AllIn(frames: seq<Frame>, key: FlowKey) {
    forall i :: 0 <= i < |frames| ==> IsFlow(frames[i].kind) && frames[i].Key() == key
  }

  lemma {:induction false} OfFlowAllIn(frames: seq<Frame>, mine: FlowKey, key: FlowKey)
    requires AllIn(frames, mine)
    ensures OfFlow(frames, key) == if key == mine then frames else []
    ensures Unordered(frames) == []
  {
    if frames != [] {
      OfFlowAllIn(frames[..|frames| - 1], mine, key);
      assert frames == frames[..|frames| - 1] + [frames[|frames| - 1]];
    }
  }

  lemma {:induction false} UnorderedAppend(a: seq<Frame>, b: seq<Frame>)
    ensures Unordered(a + b) == Unordered(a) + Unordered(b)
  {
    if b == [] {
      assert a + b == a;
    } else {
      var init := b[..|b| - 1];
      assert (a + b)[..|a + b| - 1] == a + init;
      UnorderedAppend(a, init);
    }
  }

  /** What a flow delivers came on that flow. */
  lemma {:induction false} RunFlowStaysIn(arrived: seq<Frame>, limit: nat, key: FlowKey)
    requires AllIn(arrived, key) && RunFlow(arrived, limit).Some?
    ensures AllIn(RunFlow(arrived, limit).value.out, key)
  {
    RunIsFaithful(arrived, limit);
  }

  lemma {:induction false} OfFlowIsIn(frames: seq<Frame>, key: FlowKey)
    ensures AllIn(OfFlow(frames, key), key)
  {
    if frames != [] {
      OfFlowIsIn(frames[..|frames| - 1], key);
    }
  }

  /** The buffer seen by one key is that key's own run. */
  ghost predicate SeenBy(arrived: seq<Frame>, run: BufferRun, limit: nat, key: FlowKey) {
    var mine := RunFlow(OfFlow(arrived, key), limit);
    mine.Some? && run.FlowOf(key) == mine.value.state && OfFlow(run.out, key) == mine.value.out
  }

  lemma {:induction false} FlowsAreIndependent(arrived: seq<Frame>, limit: nat, key: FlowKey)
    requires RunAll(arrived, limit).Some?
    ensures SeenBy(arrived, RunAll(arrived, limit).value, limit, key)
    ensures Unordered(RunAll(arrived, limit).value.out) == Unordered(arrived)
  {
    if arrived != [] {
      var before, f := arrived[..|arrived| - 1], arrived[|arrived| - 1];
      assert arrived == before + [f];
      FlowsAreIndependent(before, limit, key);
      var run := RunAll(before, limit).value;
      if !IsFlow(f.kind) {
        PassedOn(before, f, run, limit, key);
      } else {
        FlowsAreIndependent(before, limit, f.Key());
        DeliveredOnOwnFlow(before, f, run, limit);
        if key == f.Key() {
          OneMoreOfMine(before, f, run, limit);
        } else {
          OneMoreOfAnother(before, f, run, limit, key);
        }
      }
    }
  }

  lemma PassedOn(before: seq<Frame>, f: Frame, run: BufferRun, limit: nat, key: FlowKey)
    requires !IsFlow(f.kind) && SeenBy(before, run, limit, key) && Unordered(run.out) == Unordered(before)
    ensures SeenBy(before + [f], run.(out := run.out + [f]), limit, key)
    ensures Unordered(run.out + [f]) == Unordered(before + [f])
  {
    NotOfFlow(before, f, key);
    NotOfFlow(run.out, f, key);
    UnorderedAppend(run.out, [f]);
    UnorderedAppend(before, [f]);
  }

  /** What a frame releases is on the frame's own flow. */
  lemma DeliveredOnOwnFlow(before: seq<Frame>, f: Frame, run: BufferRun, limit: nat)
    requires IsFlow(f.kind) && AllOk(run.flows) && AcceptFrame(run.FlowOf(f.Key()), f, limit).Ready?
    requires SeenBy(before, run, limit, f.Key()) && Unordered(run.out) == Unordered(before)
    ensures AllIn(AcceptFrame(run.FlowOf(f.Key()), f, limit).frames, f.Key())
    ensures Unordered(run.out + AcceptFrame(run.FlowOf(f.Key()), f, limit).frames) == Unordered(before + [f])
  {
    var mine := OfFlow(before, f.Key());
    var frames := AcceptFrame(run.FlowOf(f.Key()), f, limit).frames;
    RunFlowSnoc(mine, f, limit);
    LastOfFlow(before, f);
    OfFlowIsIn(before + [f], f.Key());
    RunFlowStaysIn(mine + [f], limit, f.Key());
    FramesAreTail(RunFlow(mine, limit).value.out, frames, f.Key());
    OfFlowAllIn(frames, f.Key(), f.Key());
    UnorderedAppend(run.out, frames);
    UnorderedAppend(before, [f]);
  }

  lemma OneMoreOfMine(before: seq<Frame>, f: Frame, run: BufferRun, limit: nat)
    requires IsFlow(f.kind) && AllOk(run.flows) && AcceptFrame(run.FlowOf(f.Key()), f, limit).Ready?
    requires SeenBy(before, run, limit, f.Key())
    requires AllIn(AcceptFrame(run.FlowOf(f.Key()), f, limit).frames, f.Key())
    ensures var o := AcceptFrame(run.FlowOf(f.Key()), f, limit);
            SeenBy(before + [f], BufferRun(run.flows[f.Key() := o.state], run.out + o.frames), limit, f.Key())
  {
    var frames := AcceptFrame(run.FlowOf(f.Key()), f, limit).frames;
    RunFlowSnoc(OfFlow(before, f.Key()), f, limit);
    LastOfFlow(before, f);
    OfFlowAllIn(frames, f.Key(), f.Key());
    OfFlowAppend(run.out, frames, f.Key());
  }

  lemma OneMoreOfAnother(before: seq<Frame>, f: Frame, run: BufferRun, limit: nat, key: FlowKey)
    requires key != f.Key()
    requires IsFlow(f.kind) && AllOk(run.flows) && AcceptFrame(run.FlowOf(f.Key()), f, limit).Ready?
    requires SeenBy(before, run, limit, key)
    requires AllIn(AcceptFrame(run.FlowOf(f.Key()), f, limit).frames, f.Key())
    ensures var o := AcceptFrame(run.FlowOf(f.Key()), f, limit);
            SeenBy(before + [f], BufferRun(run.flows[f.Key() := o.state], run.out + o.frames), limit, key)
  {
    var frames := AcceptFrame(run.FlowOf(f.Key()), f, limit).frames;
    NotOfFlow(before, f, key);
    OfFlowAllIn(frames, f.Key(), key);
    OfFlowAppend(run.out, frames, key);
  }

  lemma RunFlowSnoc(mine: seq<Frame>, f: Frame, limit: nat)
    requires RunFlow(mine, limit).Some?
    ensures var r := RunFlow(mine, limit).value;
            RunFlow(mine + [f], limit)
            == match AcceptFrame(r.state, f, limit)
               case Refused(_) => None
               case Ready(after, frames) => Some(FlowRun(after, r.out + frames))
  {
    assert (mine + [f])[..|mine|] == mine;
  }

  lemma NotOfFlow(before: seq<Frame>, f: Frame, key: FlowKey)
    requires !IsFlow(f.kind) || f.Key() != key
    ensures OfFlow(before + [f], key) == OfFlow(before, key)
  {
    assert (before + [f])[..|before|] == before;
    assert OfFlow(before, key) + [] == OfFlow(before, key);
  }

  lemma FramesAreTail(out: seq<Frame>, frames: seq<Frame>, key: FlowKey)
    requires AllIn(out + frames, key)
    ensures AllIn(frames, key)
  {
    forall i | 0 <= i < |frames|
      ensures IsFlow(frames[i].kind) && frames[i].Key() == key
    {
      assert frames[i] == (out + frames)[|out| + i];
    }
  }

  /** The whole buffer refuses nothing exactly when no flow's own run is refused. */
  lemma {:induction false} RunAllAcceptsIff(arrived: seq<Frame>, limit: nat)
    ensures RunAll(arrived, limit).Some? <==> forall key :: RunFlow(OfFlow(arrived, key), limit).Some?
  {
    if RunAll(arrived, limit).Some? {
      forall key
        ensures RunFlow(OfFlow(arrived, key), limit).Some?
      {
        FlowsAreIndependent(arrived, limit, key);
      }
    } else {
      var key := RefusedFlow(arrived, limit);
    }
  }

  /** The flow whose frame was refused. */
  lemma {:induction false} RefusedFlow(arrived: seq<Frame>, limit: nat) returns (key: FlowKey)
    requires RunAll(arrived, limit).None?
    ensures RunFlow(OfFlow(arrived, key), limit).None?
  {
    var before, f := arrived[..|arrived| - 1], arrived[|arrived| - 1];
    assert arrived == before + [f];
    if RunAll(before, limit).None? {
      key := RefusedFlow(before, limit);
      if IsFlow(f.kind) && f.Key() == key {
        LastOfFlow(before, f);
      } else {
        NotOfFlow(before, f, key);
      }
    } else {
      key := f.Key();
      FlowsAreIndependent(before, limit, key);
      LastOfFlow(before, f);
      RunFlowSnoc(OfFlow(before, key), f, limit);
    }
  }

  lemma LastOfFlow(before: seq<Frame>, f: Frame)
    requires IsFlow(f.kind)
    ensures OfFlow(before + [f], f.Key()) == OfFlow(before, f.Key()) + [f]
    ensures OfFlow(before + [f], f.Key())[..|OfFlow(before + [f], f.Key())| - 1] == OfFlow(before, f.Key())
  {
    assert (before + [f])[..|before|] == before;
  }

  // ---- Numbering and the way through ----------------------------------------------

  /** What the assigner makes of the frames of a connection: each flow numbered 0, 1, 2, … */
  function Number(frames: seq<Frame>): (numbered: seq<Frame>)
    ensures |numbered| == |frames|
  {
    if frames == [] then []
    else
      var before, f := frames[..|frames| - 1], frames[|frames| - 1];
      Number(before) + [if IsFlow(f.kind) then f.(num := |OfFlow(before, f.Key())|) else f]
  }

  lemma {:induction false} NumberNumbers(frames: seq<Frame>, key: FlowKey)
    ensures Numbered(OfFlow(Number(frames), key))
    ensures |OfFlow(Number(frames), key)| == |OfFlow(frames, key)|
    ensures forall i :: 0 <= i < |OfFlow(frames, key)| ==>
              OfFlow(Number(frames), key)[i] == OfFlow(frames, key)[i].(num := i)
  {
    if frames != [] {
      var before := frames[..|frames| - 1];
      NumberNumbers(before, key);
      assert Number(frames)[..|frames| - 1] == Number(before);
    }
  }

  lemma CountSnoc<T>(s: seq<T>, x: T, y: T)
    ensures multiset(s + [x])[y] == multiset(s)[y] + if x == y then 1 else 0
  {
  }

  lemma {:induction false} FlowCounts(frames: seq<Frame>, key: FlowKey, f: Frame)
    ensures multiset(OfFlow(frames, key))[f]
         == if IsFlow(f.kind) && f.Key() == key then multiset(frames)[f] else 0
  {
    if frames != [] {
      var before, last := frames[..|frames| - 1], frames[|frames| - 1];
      FlowCounts(before, key, f);
      assert frames == before + [last];
      CountSnoc(before, last, f);
      CountSnoc(OfFlow(before, key), last, f);
      assert OfFlow(before, key) + [] == OfFlow(before, key);
    }
  }

  lemma {:induction false} FlowPermutation(a: seq<Frame>, b: seq<Frame>, key: FlowKey)
    requires multiset(a) == multiset(b)
    ensures multiset(OfFlow(a, key)) == multiset(OfFlow(b, key))
  {
    forall f: Frame
      ensures multiset(OfFlow(a, key))[f] == multiset(OfFlow(b, key))[f]
    {
      FlowCounts(a, key, f);
      FlowCounts(b, key, f);
    }
  }

  /** Everything of every flow was delivered once and in the order written, and nothing is held. */
  ghost predicate DeliversAll(written: seq<Frame>, run: BufferRun) {
    forall key :: OfFlow(run.out, key) == OfFlow(written, key) && run.FlowOf(key).buffer == map[]
  }

  /**
    End to end: frames numbered by the assigner, then permuted and interleaved in
    any way at all, pass a reorder buffer without a refusal exactly when no flow
    ever has more than the limit waiting; and then every flow comes out as written.
  */
  lemma EndToEnd(frames: seq<Frame>, arrived: seq<Frame>, limit: nat)
    requires multiset(arrived) == multiset(Number(frames))
    ensures RunAll(arrived, limit).Some? <==> forall key :: Bounded(OfFlow(arrived, key), limit)
    ensures RunAll(arrived, limit).Some? ==> DeliversAll(Number(frames), RunAll(arrived, limit).value)
    ensures RunAll(arrived, limit).Some?
            ==> Unordered(RunAll(arrived, limit).value.out) == Unordered(arrived)
  {
    RunAllAcceptsIff(arrived, limit);
    forall key
      ensures RunFlow(OfFlow(arrived, key), limit).Some? <==> Bounded(OfFlow(arrived, key), limit)
    {
      NumberNumbers(frames, key);
      FlowPermutation(arrived, Number(frames), key);
      PermutationIsUndone(OfFlow(Number(frames), key), OfFlow(arrived, key), limit);
    }
    if RunAll(arrived, limit).Some? {
      var run := RunAll(arrived, limit).value;
      FlowsAreIndependent(arrived, limit, FlowKey(0, None));
      forall key
        ensures OfFlow(run.out, key) == OfFlow(Number(frames), key) && run.FlowOf(key).buffer == map[]
      {
        NumberNumbers(frames, key);
        FlowPermutation(arrived, Number(frames), key);
        FlowsAreIndependent(arrived, limit, key);
        PermutationIsUndone(OfFlow(Number(frames), key), OfFlow(arrived, key), limit);
      }
    }
  }
}
