/**
  What a scalar stream holds back between writes, and for how long.
*/
module Coalescing {
  import opened CborCodec
  import opened OutputStream
  import opened StreamRuns
  import opened Wrappers

  /** The bytes a call adds to a byte stream. */
  function Data(op: Op): seq<byte> {
    match op
    case Write(data, _) => data
    case EmitCbor(Bytes(b), _) => b
    case _ => []
  }

  function AllData(ops: seq<Op>): seq<byte> {
    if ops == [] then [] else AllData(ops[..|ops| - 1]) + Data(ops[|ops| - 1])
  }

  /** The time from one call's first reading of the clock to another's second, on a clock that wraps around. */
  function Elapsed(from: Op, to: Op): nat
    requires Data(from) != [] && Data(to) != []
  {
    (to.clock.second - from.clock.first) % 0x1_0000_0000_0000_0000
  }

  /** All written from the j-th call on is held: under 4096 bytes, and none that were 20 ms old at a later write. */
  ghost predicate HeldFrom(ops: seq<Op>, j: nat, o: Out) {
    j < |ops| && Data(ops[j]) != [] && o.mode == Some(false) && o.oldest == Some(ops[j].clock.first)
    && o.buf == AllData(ops[j..]) && o.buf != [] && |o.buf| < 4096
    && forall i :: j <= i < |ops| && Data(ops[i]) != [] ==> Elapsed(ops[j], ops[i]) < 20_000_000
  }

  lemma AllDataSnoc(ops: seq<Op>, op: Op)
    ensures AllData(ops + [op]) == AllData(ops) + Data(op)
  {
    assert (ops + [op])[..|ops|] == ops;
  }

  lemma {:induction false} EmitsKeepsBuf(o: Out, bodies: seq<Body>)
    ensures var s := Emits(o, bodies);
            s.out.buf == o.buf && s.out.oldest == o.oldest && s.out.mode == o.mode && s.out.closed == o.closed
    decreases |bodies|
  {
    if bodies != [] && Emit(o, bodies[0]).err.None? {
      EmitsKeepsBuf(Emit(o, bodies[0]).out, bodies[1..]);
    }
  }

  lemma FlushEmpties(o: Out, maxChunk: nat)
    requires maxChunk > 0
    ensures DoFlush(o, maxChunk).out.buf == []
  {
    EmitsKeepsBuf(o.(buf := [], oldest := None), ByteBodies(Split(o.buf, maxChunk)));
  }

  /**
    Exactly when a write sends: the bytes held and written are 4096 or more, or the
    first of them had been held for 20 ms.  Then nothing is held any more; otherwise
    everything is, and nothing is sent.
  */
  lemma WriteSendsIff(o: Out, op: Op, maxChunk: nat)
    requires maxChunk > 0 && OpOk(op) && Data(op) != [] && o.mode == Some(false) && (o.buf != [] ==> o.oldest.Some?)
    ensures var (s, all) := (Do(o, op, maxChunk), o.buf + Data(op));
            var since := if o.buf == [] then op.clock.first else o.oldest.value;
            s.out.mode == o.mode
            && if |all| >= 4096 || (op.clock.second - since) % 0x1_0000_0000_0000_0000 >= 20_000_000
               then s.out.buf == [] && s == EmitBytes(o.(buf := [], oldest := None), all, maxChunk)
               else s.err.None? && s.out == o.(buf := all, oldest := Some(since))
  {
    EmitsKeepsBuf(o.(buf := [], oldest := None), ByteBodies(Split(o.buf + Data(op), maxChunk)));
  }

  /** A call that writes no bytes empties the buffer or leaves it as it is. */
  lemma OtherCall(o: Out, op: Op, maxChunk: nat)
    requires maxChunk > 0 && OpOk(op) && Data(op) == []
    ensures var after := Do(o, op, maxChunk).out;
            after.buf == []
            || (after.buf == o.buf && after.oldest == o.oldest && (o.mode.Some? ==> after.mode == o.mode))
  {
    hide Emits, EmitBytes, SplitText, DoFlush;
    match op
    case EmitCbor(v, _) =>
      if o.mode == Some(false) && !v.Bytes? {
        FlushEmpties(o, maxChunk);
        var flushed := DoFlush(o, maxChunk).out;
        match v
        case Text(b) => EmitsKeepsBuf(flushed, TextBodies(SplitText(b, maxChunk).pieces));
        case Array(xs) => EmitsKeepsBuf(flushed, ValueBodies(xs));
        case _ => EmitsKeepsBuf(flushed, [Whole(v)]);
      }
    case EmitListItem(item, meta) => EmitsKeepsBuf(o, FragmentBodies(Split(Encode(item), maxChunk), meta));
    case Flush => FlushEmpties(o, maxChunk);
    case Close => FlushEmpties(o.(closed := true), maxChunk);
    case _ =>
  }

  /** Data in a stream that is not of bytes is refused, and changes nothing. */
  lemma WrongModeHolds(o: Out, op: Op, maxChunk: nat)
    requires maxChunk > 0 && OpOk(op) && Data(op) != [] && o.mode != Some(false)
    ensures Do(o, op, maxChunk).out == o
  {
  }

  lemma HeldOnward(ops: seq<Op>, j: nat, o: Out, op: Op, after: Out)
    requires HeldFrom(ops, j, o) && after.mode == o.mode && after.oldest == o.oldest
    requires after.buf == o.buf + Data(op) && |after.buf| < 4096
    requires Data(op) != [] ==> Elapsed(ops[j], op) < 20_000_000
    ensures HeldFrom(ops + [op], j, after)
  {
    assert (ops + [op])[j..] == ops[j..] + [op];
    AllDataSnoc(ops[j..], op);
    hide AllData, Elapsed;
  }

  lemma HeldAnew(ops: seq<Op>, o: Out, op: Op, after: Out)
    requires Data(op) != [] && o.buf == [] && after.mode == Some(false) && after.oldest == Some(op.clock.first)
    requires after.buf == Data(op) && |after.buf| < 4096 && Elapsed(op, op) < 20_000_000
    ensures HeldFrom(ops + [op], |ops|, after)
  {
    assert (ops + [op])[|ops|..] == [op];
    AllDataSnoc([], op);
    NoData();
    assert [] + [op] == [op];
    hide AllData, Elapsed;
  }

  lemma HeldStep(ops: seq<Op>, j: nat, o: Out, op: Op, maxChunk: nat)
    requires maxChunk > 0 && OpOk(op) && (o.buf == [] || HeldFrom(ops, j, o))
    ensures var after := Do(o, op, maxChunk).out;
            after.buf == [] || HeldFrom(ops + [op], if o.buf == [] then |ops| else j, after)
  {
    hide Do, AllData;
    var after := Do(o, op, maxChunk).out;
    if Data(op) == [] {
      OtherCall(o, op, maxChunk);
      assert o.buf + [] == o.buf;
    } else if o.mode != Some(false) {
      WrongModeHolds(o, op, maxChunk);
    } else {
      WriteSendsIff(o, op, maxChunk);
      assert [] + Data(op) == Data(op);
    }
    if after.buf != [] {
      if o.buf == [] {
        HeldAnew(ops, o, op, after);
      } else {
        HeldOnward(ops, j, o, op, after);
      }
    }
  }

  lemma NoData()
    ensures AllData([]) == []
  {
  }

  /**
    Over every run, calls that fail among them: what a stream holds back is all that was
    written since some write, fewer than 4096 bytes, and at no write since had the first
    of them been held for 20 ms.
  */
  lemma {:induction false} HeldIsFewAndYoung(ops: seq<Op>, credit: Option<nat>, refused: set<nat>, maxChunk: nat)
    returns (j: nat)
    requires maxChunk > 0 && OpsOk(ops)
    ensures var o := RunOn(Opened(credit, refused), ops, maxChunk);
            o.buf == [] || HeldFrom(ops, j, o)
  {
    hide HeldFrom, Do;
    j := 0;
    if ops != [] {
      var before, op := ops[..|ops| - 1], ops[|ops| - 1];
      assert ops == before + [op];
      j := HeldIsFewAndYoung(before, credit, refused, maxChunk);
      var o := RunOn(Opened(credit, refused), before, maxChunk);
      HeldStep(before, j, o, op, maxChunk);
      j := if o.buf == [] then |before| else j;
    }
  }
}
