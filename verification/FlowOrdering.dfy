/**
  Sequence numbers and the reorder buffer.

  The model of a flow is the number expected next and the numbers held; beside it
  the buffer keeps the held frames themselves.  `StateOk` is what ties the two.
*/
module FlowOrdering {
  import opened Wrappers
  import opened Frames

  // ---- The decision -----------------------------------------------------------

  datatype Reorder = Reorder(expected: nat, held: seq<nat>)
  datatype Accepted = Deliver(order: Reorder, seqs: seq<nat>) | Hold(order: Reorder) | Stale | Duplicate | Overflow

  const Start := Reorder(0, [])

  function InsertAscending(n: nat, held: seq<nat>): seq<nat> {
    if held == [] then [n]
    else if n <= held[0] then [n] + held
    else [held[0]] + InsertAscending(n, held[1..])
  }

  /** The run of consecutive numbers from `next` at the front of held, and what is left. */
  function TakeRun(next: nat, held: seq<nat>): (seq<nat>, seq<nat>)
    decreases |held|
  {
    if held != [] && held[0] == next then
      var (run, rest) := TakeRun(next + 1, held[1..]);
      ([next] + run, rest)
    else ([], held)
  }

  function AcceptSeq(r: Reorder, n: nat, limit: nat): Accepted {
    if n < r.expected then Stale
    else if n == r.expected then
      var (run, rest) := TakeRun(n + 1, r.held);
      Deliver(Reorder(n + 1 + |run|, rest), [n] + run)
    else if n in r.held then Duplicate
    else if limit <= |r.held| then Overflow
    else Hold(r.(held := InsertAscending(n, r.held)))
  }

  // ---- Its laws ----------------------------------------------------------------

  predicate Above(low: int, held: seq<nat>)
    decreases |held|
  {
    held == [] || (held[0] > low && Above(held[0], held[1..]))
  }

  /** Held numbers are strictly ascending and all past the expected one. */
  predicate Ordered(r: Reorder) {
    Above(r.expected, r.held)
  }

  function Range(from: nat, n: nat): (s: seq<nat>)
    ensures |s| == n
    decreases n
  {
    if n == 0 then [] else [from] + Range(from + 1, n - 1)
  }

  function Members(s: seq<nat>): set<nat> {
    set n | n in s
  }

  lemma MembersOf(a: seq<nat>, b: seq<nat>)
    ensures Members(a + b) == Members(a) + Members(b)
  {
  }

  lemma {:induction false} RangeMembers(from: nat, n: nat)
    ensures forall k :: k in Range(from, n) <==> from <= k < from + n
    decreases n
  {
    if n > 0 {
      RangeMembers(from + 1, n - 1);
    }
  }

  lemma {:induction false} RangeAt(from: nat, n: nat)
    ensures forall i :: 0 <= i < n ==> Range(from, n)[i] == from + i
    decreases n
  {
    if n > 0 {
      RangeAt(from + 1, n - 1);
    }
  }

  lemma {:induction false} AboveMembers(low: int, held: seq<nat>)
    requires Above(low, held)
    ensures forall n :: n in held ==> n > low
    decreases |held|
  {
    if held != [] {
      AboveMembers(held[0], held[1..]);
      assert held == [held[0]] + held[1..];
    }
  }

  lemma {:induction false} AboveSize(low: int, held: seq<nat>)
    requires Above(low, held)
    ensures |Members(held)| == |held|
    decreases |held|
  {
    if held != [] {
      AboveSize(held[0], held[1..]);
      AboveMembers(held[0], held[1..]);
      MembersOf([held[0]], held[1..]);
      assert held == [held[0]] + held[1..];
      assert Members([held[0]]) == {held[0]};
    }
  }

  lemma {:induction false} InsertKeepsOrder(low: int, n: nat, held: seq<nat>)
    requires Above(low, held) && n > low && n !in held
    ensures Above(low, InsertAscending(n, held))
    ensures Members(InsertAscending(n, held)) == Members(held) + {n}
    decreases |held|
  {
    assert Members([n]) == {n};
    if held == [] || n <= held[0] {
      MembersOf([n], held);
      assert held != [] ==> n != held[0];
      assert ([n] + held)[1..] == held;
    } else {
      InsertKeepsOrder(held[0], n, held[1..]);
      InsertUnder(held[0], n, held[1..]);
      assert held == [held[0]] + held[1..];
    }
  }

  lemma InsertUnder(first: nat, n: nat, rest: seq<nat>)
    requires Members(InsertAscending(n, rest)) == Members(rest) + {n}
    ensures Members([first] + InsertAscending(n, rest)) == Members([first] + rest) + {n}
    ensures ([first] + InsertAscending(n, rest))[1..] == InsertAscending(n, rest)
  {
    MembersOf([first], InsertAscending(n, rest));
    MembersOf([first], rest);
  }

  function Run(next: nat, held: seq<nat>): seq<nat> {
    TakeRun(next, held).0
  }

  function Left(next: nat, held: seq<nat>): seq<nat> {
    TakeRun(next, held).1
  }

  /** The run taken is consecutive from `next`, and what stays behind is past a gap. */
  lemma {:induction false} TakeRunSplits(next: nat, held: seq<nat>)
    requires Above(next as int - 1, held)
    ensures Run(next, held) == Range(next, |Run(next, held)|)
    ensures held == Run(next, held) + Left(next, held)
    ensures Above(next + |Run(next, held)|, Left(next, held))
    decreases |held|
  {
    if held != [] && held[0] == next {
      TakeRunSplits(next + 1, held[1..]);
      assert held == [next] + held[1..];
    }
  }

  lemma DeliverIsNextRun(r: Reorder, limit: nat)
    requires Ordered(r)
    ensures var a := AcceptSeq(r, r.expected, limit);
            a.Deliver? && a.seqs == Range(r.expected, |a.seqs|) && a.seqs != []
            && a.order.expected == r.expected + |a.seqs| && Ordered(a.order)
            && [r.expected] + r.held == a.seqs + a.order.held
  {
    TakeRunSplits(r.expected + 1, r.held);
    var run, rest := Run(r.expected + 1, r.held), Left(r.expected + 1, r.held);
    assert [r.expected] + (run + rest) == [r.expected] + run + rest;
  }

  // ---- One flow with its frames ----------------------------------------------

  datatype FlowState = FlowState(order: Reorder, buffer: map<nat, Frame>)

  const Fresh := FlowState(Start, map[])

  /** The buffer's keys are exactly the model's held numbers. */
  ghost predicate StateOk(s: FlowState) {
    Ordered(s.order)
    && s.buffer.Keys == Members(s.order.held)
    && forall n :: n in s.buffer ==> s.buffer[n].num == n
  }

  function Collect(buffer: map<nat, Frame>, seqs: seq<nat>): (ready: seq<Frame>)
    requires forall i :: 0 <= i < |seqs| ==> seqs[i] in buffer
    ensures |ready| == |seqs| && forall i :: 0 <= i < |seqs| ==> ready[i] == buffer[seqs[i]]
  {
    seq(|seqs|, i requires 0 <= i < |seqs| => buffer[seqs[i]])
  }

  datatype Outcome = Ready(state: FlowState, frames: seq<Frame>) | Refused(why: Accepted)

  /** Every number a delivery names is held, and what is left is what stays held. */
  lemma ReleaseKeepsKeys(r: Reorder, limit: nat)
    requires Ordered(r)
    ensures var a := AcceptSeq(r, r.expected, limit);
            Members(a.seqs) <= Members(r.held) + {r.expected}
            && Members(r.held) + {r.expected} - Members(a.seqs) == Members(a.order.held)
  {
    DeliverIsNextRun(r, limit);
    var a := AcceptSeq(r, r.expected, limit);
    MembersOf([r.expected], r.held);
    assert Members([r.expected]) == {r.expected};
    MembersOf(a.seqs, a.order.held);
    RangeMembers(r.expected, |a.seqs|);
    AboveMembers(a.order.expected, a.order.held);
    assert Members(a.seqs) !! Members(a.order.held);
  }

  lemma ReleaseHolds(s: FlowState, f: Frame, limit: nat)
    requires StateOk(s) && f.num == s.order.expected
    ensures var a := AcceptSeq(s.order, f.num, limit);
            (forall i :: 0 <= i < |a.seqs| ==> a.seqs[i] in s.buffer[f.num := f])
            && StateOk(FlowState(a.order, s.buffer[f.num := f] - Members(a.seqs)))
  {
    ReleaseKeepsKeys(s.order, limit);
    DeliverIsNextRun(s.order, limit);
    var a := AcceptSeq(s.order, f.num, limit);
    assert forall i :: 0 <= i < |a.seqs| ==> a.seqs[i] in Members(a.seqs);
    assert (s.buffer[f.num := f] - Members(a.seqs)).Keys == Members(a.order.held);
  }

  /** What accepting a frame does to its flow. */
  function AcceptFrame(s: FlowState, f: Frame, limit: nat): (o: Outcome)
    requires StateOk(s)
  {
    match AcceptSeq(s.order, f.num, limit)
    case Deliver(order, seqs) =>
      ReleaseHolds(s, f, limit);
      var buffer := s.buffer[f.num := f];
      Ready(FlowState(order, buffer - Members(seqs)), Collect(buffer, seqs))
    case Hold(order) => Ready(FlowState(order, s.buffer[f.num := f]), [])
    case refused => Refused(refused)
  }

  /** The buffer's keys stay the model's held numbers, so no delivered number is ever missing. */
  lemma AcceptKeepsState(s: FlowState, f: Frame, limit: nat)
    requires StateOk(s) && AcceptFrame(s, f, limit).Ready?
    ensures StateOk(AcceptFrame(s, f, limit).state)
  {
    if f.num == s.order.expected {
      ReleaseHolds(s, f, limit);
    } else {
      InsertKeepsOrder(s.order.expected, f.num, s.order.held);
    }
  }

  // ---- The buffer object -------------------------------------------------------

  /** Takes the frames of a run out of the buffer; none of them is ever missing. */
  method RemoveAll(whole: map<nat, Frame>, seqs: seq<nat>, ghost from: nat)
    returns (buffer: map<nat, Frame>, ready: seq<Frame>)
    requires seqs == Range(from, |seqs|)
    requires forall i :: 0 <= i < |seqs| ==> seqs[i] in whole
    ensures buffer == whole - Members(seqs) && ready == Collect(whole, seqs)
  {
    buffer, ready := whole, [];
    for i := 0 to |seqs|
      invariant buffer == whole - Members(seqs[..i])
      invariant ready == Collect(whole, seqs[..i])
    {
      RangeAt(from, |seqs|);
      assert seqs[i] in buffer;
      ready := ready + [buffer[seqs[i]]];
      buffer := buffer - {seqs[i]};
      assert seqs[..i + 1] == seqs[..i] + [seqs[i]];
      MembersOf(seqs[..i], [seqs[i]]);
    }
    assert seqs[..|seqs|] == seqs;
  }

  class ReorderBuffer {
    var flows: map<FlowKey, FlowState>
    const maxBufferPerFlow: nat

    ghost predicate Valid()
      reads this
    {
      forall k :: k in flows ==> StateOk(flows[k])
    }

    ghost function FlowOf(key: FlowKey): (s: FlowState)
      requires Valid()
      reads this
      ensures StateOk(s)
    {
      if key in flows then flows[key] else Fresh
    }

    constructor (maxBufferPerFlow: nat)
      ensures Valid() && flows == map[] && this.maxBufferPerFlow == maxBufferPerFlow
    {
      this.maxBufferPerFlow := maxBufferPerFlow;
      flows := map[];
    }

    /** Deliver, hold or refuse; the flow of the frame moves as `AcceptFrame` says and no other flow moves. */
    method Accept(f: Frame) returns (r: Result<seq<Frame>, Accepted>)
      requires Valid()
      modifies this
      ensures Valid()
      ensures !IsFlow(f.kind) ==> r == Ok([f]) && flows == old(flows)
      ensures IsFlow(f.kind) ==>
                match AcceptFrame(old(FlowOf(f.Key())), f, maxBufferPerFlow)
                case Ready(state, frames) => r == Ok(frames) && flows == old(flows)[f.Key() := state]
                case Refused(why) =>
                  r == Result.Err(why) && flows == old(flows)[f.Key() := old(FlowOf(f.Key()))]
    {
      if !IsFlow(f.kind) {
        return Ok([f]);
      }
      var key := f.Key();
      var state := if key in flows then flows[key] else Fresh;
      flows := flows[key := state];
      match AcceptSeq(state.order, f.num, maxBufferPerFlow) {
        case Deliver(order, seqs) =>
          ReleaseHolds(state, f, maxBufferPerFlow);
          DeliverIsNextRun(state.order, maxBufferPerFlow);
          var buffer, ready := RemoveAll(state.buffer[f.num := f], seqs, state.order.expected);
          flows := flows[key := FlowState(order, buffer)];
          r := Ok(ready);
        case Hold(order) =>
          AcceptKeepsState(state, f, maxBufferPerFlow);
          flows := flows[key := FlowState(order, state.buffer[f.num := f])];
          r := Ok([]);
        case refused =>
          r := Result.Err(refused);
      }
    }

    method CleanupFlow(key: FlowKey)
      requires Valid()
      modifies this
      ensures Valid() && flows == old(flows) - {key}
    {
      flows := flows - {key};
    }
  }

  class SeqAssigner {
    var counters: map<FlowKey, nat>

    constructor ()
      ensures counters == map[]
    {
      counters := map[];
    }

    ghost function Next(key: FlowKey): nat
      reads this
    {
      if key in counters then counters[key] else 0
    }

    method Assign(f: Frame) returns (numbered: Frame)
      modifies this
      ensures !IsFlow(f.kind) ==> numbered == f && counters == old(counters)
      ensures IsFlow(f.kind) ==>
                numbered == f.(num := old(Next(f.Key())))
                && counters == old(counters)[f.Key() := old(Next(f.Key())) + 1]
    {
      if !IsFlow(f.kind) {
        return f;
      }
      var counter := if f.Key() in counters then counters[f.Key()] else 0;
      numbered := f.(num := counter);
      counters := counters[f.Key() := counter + 1];
    }

    method Remove(key: FlowKey)
      modifies this
      ensures counters == old(counters) - {key}
    {
      counters := counters - {key};
    }
  }
}
