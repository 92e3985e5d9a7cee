/**
  The one place frames reach the wire: the gate behind a flow's terminal frame,
  and the numbering of what passes it.
*/
module WriterGate {
  import opened Wrappers
  import opened Frames
  import opened FlowOrdering

  datatype Write = Pass(endsFlow: bool) | Suppress

  function WriteDecision(over: bool, kind: FrameType): Write {
    if over && IsFlow(kind) then Suppress else Pass(IsTerminal(kind))
  }

  datatype Writer = Writer(counters: map<FlowKey, nat>, ended: seq<FlowKey>, wire: seq<Frame>) {
    function Next(key: FlowKey): nat {
      if key in counters then counters[key] else 0
    }
  }

  const Idle := Writer(map[], [], [])

  function Remember(ended: seq<FlowKey>, key: FlowKey, cap: nat): seq<FlowKey>
    requires cap > 0
  {
    if key in ended then ended
    else (if |ended| == cap then ended[1..] else ended) + [key]
  }

  function Numbering(s: Writer, f: Frame): Frame {
    if IsFlow(f.kind) then f.(num := s.Next(f.Key())) else f
  }

  /** One send; `ok` is whether the channel took the frame. */
  function Send(s: Writer, f: Frame, ok: bool, cap: nat): Writer
    requires cap > 0
  {
    match WriteDecision(f.Key() in s.ended, f.kind)
    case Suppress => s
    case Pass(endsFlow) =>
      var counters := if IsFlow(f.kind) then s.counters[f.Key() := s.Next(f.Key()) + 1] else s.counters;
      if !ok then s.(counters := counters)
      else
        Writer(if endsFlow then counters - {f.Key()} else counters,
               if endsFlow then Remember(s.ended, f.Key(), cap) else s.ended,
               s.wire + [Numbering(s, f)])
  }

  datatype Attempt = Attempt(frame: Frame, ok: bool)

  function Sends(attempts: seq<Attempt>, cap: nat): Writer
    requires cap > 0
  {
    if attempts == [] then Idle
    else
      var last := attempts[|attempts| - 1];
      Send(Sends(attempts[..|attempts| - 1], cap), last.frame, last.ok, cap)
  }

  // ---- What the wire alone says --------------------------------------------------

  /** The flow's last frame so far was its terminal. */
  predicate Ended(wire: seq<Frame>, key: FlowKey) {
    wire != [] &&
    var last := wire[|wire| - 1];
    if IsFlow(last.kind) && last.Key() == key then IsTerminal(last.kind)
    else Ended(wire[..|wire| - 1], key)
  }

  /** The flows that ended after the last frame of this one. */
  function EndedSince(wire: seq<Frame>, key: FlowKey): seq<FlowKey> {
    if wire == [] then []
    else
      var last := wire[|wire| - 1];
      if IsFlow(last.kind) && last.Key() == key then []
      else EndedSince(wire[..|wire| - 1], key) + if IsTerminal(last.kind) then [last.Key()] else []
  }

  function Keys(s: seq<FlowKey>): set<FlowKey> {
    set k | k in s
  }

  /** How many frames the flow has on the wire since its last terminal. */
  function SinceTerminal(wire: seq<Frame>, key: FlowKey): nat {
    if wire == [] then 0
    else
      var last := wire[|wire| - 1];
      if !IsFlow(last.kind) || last.Key() != key then SinceTerminal(wire[..|wire| - 1], key)
      else if IsTerminal(last.kind) then 0
      else SinceTerminal(wire[..|wire| - 1], key) + 1
  }

  // ---- What the gate promises ---------------------------------------------------

  // The record of ended flows is a bounded queue, so the gate is not a promise for
  // ever.  What it is a promise of is stated exactly, over the wire alone.

  predicate NoDups(s: seq<FlowKey>) {
    forall i, j :: 0 <= i < j < |s| ==> s[i] != s[j]
  }

  /** The queue of ended flows, read off the wire: a remembered flow and the ones that ended after it. */
  ghost predicate Remembers(ended: seq<FlowKey>, wire: seq<Frame>, cap: nat, key: FlowKey) {
    if Ended(wire, key) && |Keys(EndedSince(wire, key))| < cap then
      exists i :: 0 <= i < |ended| && ended[i] == key && ended[i + 1..] == EndedSince(wire, key)
    else key !in ended
  }

  ghost predicate GateInv(s: Writer, cap: nat) {
    NoDups(s.ended) && |s.ended| <= cap && forall key :: Remembers(s.ended, s.wire, cap, key)
  }

  lemma {:induction false} KeysSize(s: seq<FlowKey>)
    requires NoDups(s)
    ensures |Keys(s)| == |s|
  {
    if s != [] {
      var init, last := s[..|s| - 1], s[|s| - 1];
      KeysSize(init);
      assert s == init + [last];
      assert Keys(s) == Keys(init) + {last};
    }
  }

  /** A frame of another kind or flow that ends nothing changes nothing for this one. */
  lemma RemembersPassive(ended: seq<FlowKey>, wire: seq<Frame>, cap: nat, key: FlowKey, f: Frame)
    requires Remembers(ended, wire, cap, key) && !IsTerminal(f.kind)
    requires IsFlow(f.kind) ==> f.Key() != key
    ensures Remembers(ended, wire + [f], cap, key)
  {
    assert (wire + [f])[..|wire|] == wire;
    assert EndedSince(wire, key) + [] == EndedSince(wire, key);
  }

  lemma RemembersOwnEnd(ended: seq<FlowKey>, wire: seq<Frame>, cap: nat, f: Frame)
    requires f.Key() !in ended && IsTerminal(f.kind) && cap > 0
    ensures Remembers(Remember(ended, f.Key(), cap), wire + [f], cap, f.Key())
  {
    var after := Remember(ended, f.Key(), cap);
    assert Keys([]) == {};
    assert EndedSince(wire + [f], f.Key()) == [];
    assert after[|after| - 1] == f.Key() && after[|after|..] == [];
  }

  /** Another flow's end: this one moves up the queue, or falls off it at the cap. */
  lemma RemembersOtherEnd(ended: seq<FlowKey>, wire: seq<Frame>, cap: nat, key: FlowKey, f: Frame)
    requires Remembers(ended, wire, cap, key) && NoDups(ended) && |ended| <= cap && cap > 0
    requires f.Key() !in ended && IsTerminal(f.kind) && f.Key() != key
    ensures Remembers(Remember(ended, f.Key(), cap), wire + [f], cap, key)
  {
    var since := EndedSince(wire, key);
    assert (wire + [f])[..|wire|] == wire;
    assert EndedSince(wire + [f], key) == since + [f.Key()];
    if key in ended {
      var i :| 0 <= i < |ended| && ended[i] == key && ended[i + 1..] == since;
      MovesUp(ended, cap, key, f.Key(), i);
    } else {
      KeysGrow(since, f.Key());
      assert key !in Remember(ended, f.Key(), cap);
    }
  }

  /** The queue from a key on, once another key has been remembered. */
  lemma MovesUp(ended: seq<FlowKey>, cap: nat, key: FlowKey, newest: FlowKey, i: nat)
    requires NoDups(ended) && |ended| <= cap && cap > 0 && newest !in ended && newest != key
    requires i < |ended| && ended[i] == key
    ensures var after, since := Remember(ended, newest, cap), ended[i + 1..] + [newest];
            if |Keys(since)| < cap then exists j :: 0 <= j < |after| && after[j] == key && after[j + 1..] == since
            else key !in after
  {
    var after, since := Remember(ended, newest, cap), ended[i + 1..] + [newest];
    KeysSize(since);
    if |ended| < cap {
      assert after[i] == key && after[i + 1..] == since;
    } else if i > 0 {
      assert after[i - 1] == key && after[i - 1 + 1..] == since;
    }
  }

  lemma KeysGrow(s: seq<FlowKey>, k: FlowKey)
    ensures |Keys(s + [k])| >= |Keys(s)|
  {
    assert Keys(s + [k]) == Keys(s) + {k};
    if k in Keys(s) {
      assert Keys(s) + {k} == Keys(s);
    } else {
      assert |Keys(s) + {k}| == |Keys(s)| + 1;
    }
  }

  lemma SendKeepsGate(s: Writer, f: Frame, ok: bool, cap: nat)
    requires GateInv(s, cap) && cap > 0
    ensures GateInv(Send(s, f, ok, cap), cap)
  {
    var numbered := Numbering(s, f);
    if ok && !(f.Key() in s.ended && IsFlow(f.kind)) {
      forall key
        ensures Remembers(Send(s, f, ok, cap).ended, s.wire + [numbered], cap, key)
      {
        assert Remembers(s.ended, s.wire, cap, key);
        assert numbered.Key() == f.Key();
        if !IsTerminal(f.kind) {
          if !IsFlow(f.kind) || f.Key() != key {
            RemembersPassive(s.ended, s.wire, cap, key, numbered);
          }
        } else if f.Key() == key {
          RemembersOwnEnd(s.ended, s.wire, cap, numbered);
        } else {
          RemembersOtherEnd(s.ended, s.wire, cap, key, numbered);
        }
      }
    }
  }

  lemma {:induction false} GateHolds(attempts: seq<Attempt>, cap: nat)
    requires cap > 0
    ensures GateInv(Sends(attempts, cap), cap)
  {
    if attempts != [] {
      var last := attempts[|attempts| - 1];
      GateHolds(attempts[..|attempts| - 1], cap);
      SendKeepsGate(Sends(attempts[..|attempts| - 1], cap), last.frame, last.ok, cap);
    }
  }

  /**
    The gate, exactly: after any history a flow frame is suppressed if and only if
    its flow's last frame on the wire was its terminal and fewer than `cap` other
    flows have ended since.  Frames outside flows always pass.
  */
  lemma SuppressedIff(attempts: seq<Attempt>, f: Frame, cap: nat)
    requires cap > 0
    ensures var s := Sends(attempts, cap);
            WriteDecision(f.Key() in s.ended, f.kind) == Suppress
            <==> IsFlow(f.kind) && Ended(s.wire, f.Key()) && |Keys(EndedSince(s.wire, f.Key()))| < cap
  {
    GateHolds(attempts, cap);
    var s := Sends(attempts, cap);
    assert Remembers(s.ended, s.wire, cap, f.Key());
  }

  /** Right behind an END or ERR of its flow, taken or gated, a frame of any of the seven kinds is not written. */
  lemma NothingBehindTheEnd(attempts: seq<Attempt>, end: Frame, f: Frame, ok: bool, cap: nat)
    requires cap > 0 && end.kind in {End, FrameType.Err} && f.Key() == end.Key()
    requires f.kind in {Req, Chunk, End, Log, FrameType.Err, StreamStart, StreamEnd}
    ensures var s := Send(Sends(attempts, cap), end, true, cap);
            Send(s, f, ok, cap) == s
  {
  }

  /** A frame outside flows is written as it is, however many flows have ended, and no flow's count or end moves. */
  lemma OutsideFlowsPasses(attempts: seq<Attempt>, f: Frame, cap: nat)
    requires cap > 0 && f.kind in {Hello, Heartbeat, RelayNotify, RelayState, Cancel, Credit, CloseStream, Policy}
    ensures var s := Sends(attempts, cap);
            Send(s, f, true, cap) == s.(wire := s.wire + [f]) && Send(s, f, false, cap) == s
  {
  }

  // ---- What the numbering promises -----------------------------------------------

  /** Every flow frame carries its place since the flow's last terminal: no gap and no repeat. */
  predicate InSequence(wire: seq<Frame>) {
    wire == [] ||
    var last := wire[|wire| - 1];
    InSequence(wire[..|wire| - 1])
    && (IsFlow(last.kind) ==> last.num == SinceTerminal(wire[..|wire| - 1], last.Key()))
  }

  /** How many numbers the flow has spent on frames that were not written, since its last terminal. */
  function Spent(s: Writer, key: FlowKey): int {
    s.Next(key) - SinceTerminal(s.wire, key)
  }

  predicate OnFlow(f: Frame, key: FlowKey) {
    IsFlow(f.kind) && f.Key() == key
  }

  /** The i-th attempt is a frame of the flow that passes the gate and is then refused by the channel. */
  predicate Loses(attempts: seq<Attempt>, i: nat, cap: nat, key: FlowKey)
    requires cap > 0 && i < |attempts|
  {
    OnFlow(attempts[i].frame, key) && !attempts[i].ok && key !in Sends(attempts[..i], cap).ended
  }

  /** The channel takes no terminal of the flow in this stretch. */
  predicate NoEnd(attempts: seq<Attempt>, from: nat, to: nat, key: FlowKey)
    requires to <= |attempts|
  {
    forall m :: from <= m < to ==>
      !(attempts[m].ok && IsTerminal(attempts[m].frame.kind) && attempts[m].frame.Key() == key)
  }

  /** The flow has lost a frame and not ended since. */
  ghost predicate Owes(attempts: seq<Attempt>, cap: nat, key: FlowKey)
    requires cap > 0
  {
    exists i :: 0 <= i < |attempts| && Loses(attempts, i, cap, key) && NoEnd(attempts, i + 1, |attempts|, key)
  }

  /**
    What breaks the numbering: the i-th attempt loses a frame of a flow, and the
    j-th is the flow's again and taken by the channel, with no end of the flow
    between.
  */
  predicate Skips(attempts: seq<Attempt>, i: nat, j: nat, cap: nat)
    requires cap > 0 && i < j < |attempts|
  {
    var key := attempts[j].frame.Key();
    Loses(attempts, i, cap, key) && NoEnd(attempts, i + 1, j, key)
    && OnFlow(attempts[j].frame, key) && attempts[j].ok
  }

  lemma OwesSnoc(attempts: seq<Attempt>, n: nat, cap: nat, key: FlowKey)
    requires cap > 0 && |attempts| == n + 1
    ensures Owes(attempts, cap, key)
            <==> Loses(attempts, n, cap, key) || (Owes(attempts[..n], cap, key) && NoEnd(attempts, n, n + 1, key))
  {
    var before := attempts[..n];
    forall i | 0 <= i < n
      ensures Loses(before, i, cap, key) <==> Loses(attempts, i, cap, key)
      ensures NoEnd(attempts, i + 1, n + 1, key) <==> NoEnd(before, i + 1, n, key) && NoEnd(attempts, n, n + 1, key)
    {
      assert before[..i] == attempts[..i];
      if NoEnd(before, i + 1, n, key) && NoEnd(attempts, n, n + 1, key) {
        assert forall m :: i + 1 <= m < n ==> before[m] == attempts[m];
      }
      if NoEnd(attempts, i + 1, n + 1, key) {
        assert forall m :: i + 1 <= m < n ==> before[m] == attempts[m];
      }
    }
    if Owes(before, cap, key) && NoEnd(attempts, n, n + 1, key) {
      var i :| 0 <= i < n && Loses(before, i, cap, key) && NoEnd(before, i + 1, n, key);
      assert Loses(attempts, i, cap, key);
    }
    if Owes(attempts, cap, key) {
      var i :| 0 <= i < n + 1 && Loses(attempts, i, cap, key) && NoEnd(attempts, i + 1, n + 1, key);
      if i < n {
        assert Loses(before, i, cap, key);
      }
    }
  }

  /** A flow's counter is ahead of the wire exactly when it lost a frame and has not ended since. */
  lemma {:induction false} SpentIff(attempts: seq<Attempt>, cap: nat, key: FlowKey)
    requires cap > 0
    ensures var s := Sends(attempts, cap);
            Spent(s, key) >= 0 && (key in s.ended ==> Spent(s, key) == 0)
            && (Spent(s, key) > 0 <==> Owes(attempts, cap, key))
  {
    if attempts != [] {
      var n := |attempts| - 1;
      SpentIff(attempts[..n], cap, key);
      OwesSnoc(attempts, n, cap, key);
      SpentSnoc(Sends(attempts[..n], cap), attempts[n], cap, key);
      hide Owes, Spent, Send;
    }
  }

  lemma SinceTerminalSnoc(before: seq<Frame>, f: Frame, key: FlowKey)
    ensures SinceTerminal(before + [f], key)
         == if !OnFlow(f, key) then SinceTerminal(before, key)
            else if IsTerminal(f.kind) then 0
            else SinceTerminal(before, key) + 1
  {
    assert (before + [f])[..|before|] == before;
  }

  lemma SpentSnoc(s: Writer, a: Attempt, cap: nat, key: FlowKey)
    requires cap > 0 && Spent(s, key) >= 0 && (key in s.ended ==> Spent(s, key) == 0)
    ensures var u := Send(s, a.frame, a.ok, cap);
            Spent(u, key) == (if !OnFlow(a.frame, key) || key in s.ended then Spent(s, key)
                              else if !a.ok then Spent(s, key) + 1
                              else if IsTerminal(a.frame.kind) then 0
                              else Spent(s, key))
            && (key in u.ended ==> Spent(u, key) == 0)
  {
    var numbered := Numbering(s, a.frame);
    SinceTerminalSnoc(s.wire, numbered, key);
    hide SinceTerminal;
    assert numbered.Key() == a.frame.Key() && numbered.kind == a.frame.kind;
    if a.frame.Key() in s.ended && IsFlow(a.frame.kind) {
    } else if !OnFlow(a.frame, key) {
    } else if !a.ok {
    } else {
      assert a.frame.Key() == key;
    }
  }

  /**
    The numbering, exactly: the wire is gap-free if and only if no frame was
    written after one of its flow was lost, the flow not having ended between.
    A number is spent before the write is tried, so a writer that is refused once
    and then goes on leaves a gap the receiver waits at for ever.
  */
  lemma {:induction false} InSequenceIff(attempts: seq<Attempt>, cap: nat)
    requires cap > 0
    ensures InSequence(Sends(attempts, cap).wire)
            <==> forall i, j :: 0 <= i < j < |attempts| ==> !Skips(attempts, i, j, cap)
  {
    if attempts != [] {
      var n := |attempts| - 1;
      var before, key := attempts[..n], attempts[n].frame.Key();
      InSequenceIff(before, cap);
      SkipsSnoc(attempts, n, cap);
      SpentIff(before, cap, key);
      InSequenceSnoc(Sends(before, cap), attempts[n], cap);
      hide Skips, Owes, Spent, Send, InSequence;
    }
  }

  lemma InSequenceSnoc(s: Writer, a: Attempt, cap: nat)
    requires cap > 0 && Spent(s, a.frame.Key()) >= 0
    requires a.frame.Key() in s.ended ==> Spent(s, a.frame.Key()) == 0
    ensures InSequence(Send(s, a.frame, a.ok, cap).wire)
            <==> InSequence(s.wire) && !(a.ok && IsFlow(a.frame.kind) && Spent(s, a.frame.Key()) > 0)
  {
    var wire := s.wire + [Numbering(s, a.frame)];
    assert wire[..|s.wire|] == s.wire;
  }

  lemma SkipsSnoc(attempts: seq<Attempt>, n: nat, cap: nat)
    requires cap > 0 && |attempts| == n + 1
    ensures (forall i, j :: 0 <= i < j < n + 1 ==> !Skips(attempts, i, j, cap))
            <==> (forall i, j :: 0 <= i < j < n ==> !Skips(attempts[..n], i, j, cap))
                 && !(attempts[n].ok && IsFlow(attempts[n].frame.kind)
                      && Owes(attempts[..n], cap, attempts[n].frame.Key()))
  {
    var before, key := attempts[..n], attempts[n].frame.Key();
    forall i, j | 0 <= i < j < n
      ensures Skips(before, i, j, cap) <==> Skips(attempts, i, j, cap)
    {
      SameLoss(attempts, n, i, j, cap, attempts[j].frame.Key());
    }
    forall i | 0 <= i < n
      ensures Skips(attempts, i, n, cap)
              <==> attempts[n].ok && IsFlow(attempts[n].frame.kind)
                   && Loses(before, i, cap, key) && NoEnd(before, i + 1, n, key)
    {
      SameLoss(attempts, n, i, n, cap, key);
    }
  }

  lemma SameLoss(attempts: seq<Attempt>, n: nat, i: nat, j: nat, cap: nat, key: FlowKey)
    requires cap > 0 && i < j <= n && n < |attempts|
    ensures Loses(attempts[..n], i, cap, key) <==> Loses(attempts, i, cap, key)
    ensures NoEnd(attempts[..n], i + 1, j, key) <==> NoEnd(attempts, i + 1, j, key)
  {
    assert attempts[..n][..i] == attempts[..i];
    assert forall m :: 0 <= m < n ==> attempts[..n][m] == attempts[m];
  }

  /** The smallest failing run: a frame the channel refuses, and then one it takes. */
  lemma RefusedThenTaken(lost: Frame, next: Frame, cap: nat)
    requires cap > 0 && IsFlow(lost.kind) && IsFlow(next.kind) && lost.Key() == next.Key()
    ensures var run := [Attempt(lost, false), Attempt(next, true)];
            Skips(run, 0, 1, cap) && Sends(run, cap).wire == [next.(num := 1)] && !InSequence(Sends(run, cap).wire)
  {
    var run := [Attempt(lost, false), Attempt(next, true)];
    assert run[..1] == [Attempt(lost, false)] && run[..0] == [];
    assert run[..1][..0] == [];
    assert Sends(run[..1], cap) == Writer(map[next.Key() := 1], [], []);
    assert Sends(run, cap).wire == [next.(num := 1)];
    assert [next.(num := 1)][..0] == [];
  }

  // ---- The objects -------------------------------------------------------------

  class TerminatedFlows {
    var order: seq<FlowKey>
    var members: set<FlowKey>
    const cap: nat

    ghost predicate Valid()
      reads this
    {
      cap > 0 && members == Keys(order) && NoDups(order) && |order| <= cap
    }

    constructor (cap: nat)
      requires cap > 0
      ensures Valid() && order == [] && this.cap == cap
    {
      this.cap := cap;
      order, members := [], {};
    }

    method Insert(key: FlowKey)
      requires Valid()
      modifies this
      ensures Valid() && order == Remember(old(order), key, cap)
    {
      if key in members {
        return;
      }
      ghost var was := order;
      if |order| == cap {
        var oldest := order[0];
        order := order[1..];
        members := members - {oldest};
        assert was == [oldest] + order;
      }
      assert members == Keys(order);
      order := order + [key];
      members := members + {key};
    }
  }

  class ChannelFrameSender {
    const terminated: TerminatedFlows
    const seqAssigner: SeqAssigner
    var wire: seq<Frame>

    ghost predicate Valid()
      reads this, terminated
    {
      terminated.Valid()
    }

    ghost function State(): Writer
      reads this, terminated, seqAssigner
    {
      Writer(seqAssigner.counters, terminated.order, wire)
    }

    constructor ()
      ensures Valid() && State() == Idle && terminated.cap == 1024
      ensures fresh(terminated) && fresh(seqAssigner)
    {
      terminated := new TerminatedFlows(1024);
      seqAssigner := new SeqAssigner();
      wire := [];
    }

    /** True when the frame was dropped because the channel is closed. */
    method SendFrame(f: Frame, ok: bool) returns (dropped: bool)
      requires Valid()
      modifies this, terminated, seqAssigner
      ensures Valid() && State() == Send(old(State()), f, ok, terminated.cap)
      ensures dropped <==> !ok && WriteDecision(f.Key() in old(terminated.order), f.kind).Pass?
    {
      var key := f.Key();
      var decision := WriteDecision(key in terminated.members, f.kind);
      if decision.Suppress? {
        return false;
      }
      var numbered := seqAssigner.Assign(f);
      if !ok {
        return true;
      }
      wire := wire + [numbered];
      if decision.endsFlow {
        seqAssigner.Remove(key);
        terminated.Insert(key);
      }
      return false;
    }
  }
}
