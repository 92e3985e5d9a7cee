/**
  Whole lives of one output stream: any sequence of calls, any clock readings, any
  moment at which the credit gate closes and any frames the channel refuses.
*/
module StreamRuns {
  import opened CborCodec
  import opened OutputStream
  import opened StreamContent
  import opened Wrappers

  predicate OpsOk(ops: seq<Op>) {
    forall i :: 0 <= i < |ops| ==> OpOk(ops[i])
  }

  /** A handler that lets the first failure propagate. */
  function Run(o: Out, ops: seq<Op>, maxChunk: nat): Step
    requires maxChunk > 0 && OpsOk(ops)
  {
    if ops == [] then Step(o, None)
    else
      var s := Run(o, ops[..|ops| - 1], maxChunk);
      if s.err.Some? then s else Do(s.out, ops[|ops| - 1], maxChunk)
  }

  /** What a call means to add to the stream. */
  function Intended(op: Op): seq<Atom> {
    match op
    case Write(data, _) => ByteAtoms(data)
    case EmitCbor(v, _) => if v.Array? then AllAtoms(ValueBodies(v.xs)) else AtomsOf(v)
    case _ => []
  }

  function AllIntended(ops: seq<Op>): seq<Atom> {
    if ops == [] then [] else AllIntended(ops[..|ops| - 1]) + Intended(ops[|ops| - 1])
  }

  /** What is on the wire and what is still held back. */
  function Total(o: Out): seq<Atom> {
    Content(o.wire) + ByteAtoms(o.buf)
  }

  /** One call: its whole intent is added if it succeeds, and if it fails a prefix of all there is to send is left. */
  ghost predicate Adds(o: Out, s: Step, intent: seq<Atom>) {
    (s.err.None? ==> Total(s.out) == Total(o) + intent)
    && Prefix(Total(s.out), Total(o) + intent)
  }

  lemma AtomsCut(bodies: seq<Body>, k: nat)
    requires k <= |bodies|
    ensures AllAtoms(bodies) == AllAtoms(bodies[..k]) + AllAtoms(bodies[k..])
    ensures k == |bodies| ==> bodies[..k] == bodies
  {
    assert bodies == bodies[..k] + bodies[k..];
    AtomsAppend(bodies[..k], bodies[k..]);
  }

  lemma SentPart(o: Out, bodies: seq<Body>)
    ensures Prefix(Content(Emits(o, bodies).out.wire), Content(o.wire) + AllAtoms(bodies))
    ensures Emits(o, bodies).err.None? ==> Content(Emits(o, bodies).out.wire) == Content(o.wire) + AllAtoms(bodies)
    ensures Emits(o, bodies).out.buf == o.buf && Emits(o, bodies).out.mode == o.mode
  {
    var k := Taken(o, |bodies|);
    EmitsIsPrefix(o, bodies);
    ContentAfterSending(o, bodies);
    AtomsCut(bodies, k);
  }

  lemma PrefixExtends(a: seq<Atom>, b: seq<Atom>, c: seq<Atom>)
    requires Prefix(a, b)
    ensures Prefix(a, b + c)
  {
  }

  lemma EmitBytesAdds(o: Out, data: seq<byte>, maxChunk: nat)
    requires maxChunk > 0 && o.buf == []
    ensures Adds(o, EmitBytes(o, data, maxChunk), ByteAtoms(data))
    ensures EmitBytes(o, data, maxChunk).out.buf == []
  {
    SplitKeepsBytes(data, maxChunk);
    SentPart(o, ByteBodies(Split(data, maxChunk)));
    NothingHeld(o);
    NothingHeld(EmitBytes(o, data, maxChunk).out);
  }

  lemma NothingHeld(o: Out)
    requires o.buf == []
    ensures Total(o) == Content(o.wire)
  {
    assert ByteAtoms([]) == [];
  }

  /** A flush moves what is held back to the wire, and nothing else. */
  lemma FlushAdds(o: Out, maxChunk: nat)
    requires maxChunk > 0
    ensures Adds(o, DoFlush(o, maxChunk), [])
    ensures DoFlush(o, maxChunk).out.buf == []
  {
    assert Total(o) + [] == Total(o);
    if o.buf == [] {
      NothingHeld(o);
    } else {
      var emptied := o.(buf := [], oldest := None);
      EmitBytesAdds(emptied, o.buf, maxChunk);
      NothingHeld(emptied);
    }
  }

  lemma BytesAdds(o: Out, data: seq<byte>, clock: Clock, maxChunk: nat)
    requires maxChunk > 0
    ensures Adds(o, DoBytes(o, data, clock, maxChunk), ByteAtoms(data))
  {
    var held := o.buf + data;
    ByteAtomsAppend(o.buf, data);
    assert Content(o.wire) + (ByteAtoms(o.buf) + ByteAtoms(data)) == Total(o) + ByteAtoms(data);
    if data == [] {
      assert Total(o) + [] == Total(o);
    } else {
      var (after, due) := Coalesce(o, data, clock);
      if due.Some? {
        EmitBytesAdds(after, held, maxChunk);
        NothingHeld(after);
      }
    }
  }

  lemma SentText(o: Out, text: seq<byte>, split: TextSplit, maxChunk: nat)
    requires IsUtf8(text) && FaithfulSplit(text, split, maxChunk)
    ensures var sent := Emits(o, TextBodies(split.pieces));
            Prefix(Content(sent.out.wire), Content(o.wire) + TextAtoms(text)) && sent.out.buf == o.buf
            && (sent.err.None? && split.whole ==> Content(sent.out.wire) == Content(o.wire) + TextAtoms(text))
  {
    var n := Length(split.pieces);
    var sent := Emits(o, TextBodies(split.pieces));
    SentPart(o, TextBodies(split.pieces));
    PrefixExtends(Content(sent.out.wire), Content(o.wire) + TextAtoms(text[..n]), TextAtoms(text[n..]));
    Regroup(Content(o.wire), TextAtoms(text[..n]), TextAtoms(text[n..]));
  }

  lemma Regroup(a: seq<Atom>, b: seq<Atom>, c: seq<Atom>)
    ensures a + b + c == a + (b + c)
  {
  }

  lemma TextAdds(o: Out, text: seq<byte>, maxChunk: nat)
    requires maxChunk > 0 && o.buf == [] && IsUtf8(text)
    ensures Adds(o, DoText(o, text, maxChunk), TextAtoms(text))
  {
    SplitTextIsFaithful(text, maxChunk);
    SentText(o, text, SplitText(text, maxChunk), maxChunk);
    NothingHeld(o);
    NothingHeld(DoText(o, text, maxChunk).out);
  }

  lemma ValuesAdd(o: Out, bodies: seq<Body>)
    requires o.buf == []
    ensures Adds(o, Emits(o, bodies), AllAtoms(bodies))
  {
    SentPart(o, bodies);
    NothingHeld(o);
    NothingHeld(Emits(o, bodies).out);
  }

  /** The ordering barrier: a value never overtakes bytes written before it. */
  lemma ValueAdds(o: Out, v: Cbor, clock: Clock, maxChunk: nat)
    requires maxChunk > 0 && !v.Bytes? && (v.Text? ==> IsUtf8(v.b))
    ensures Adds(o, DoValue(o, v, maxChunk), Intended(EmitCbor(v, clock)))
  {
    var flushed := DoFlush(o, maxChunk);
    FlushAdds(o, maxChunk);
    assert Total(o) + [] == Total(o);
    if flushed.err.Some? {
      PrefixExtends(Content(flushed.out.wire), Total(o), Intended(EmitCbor(v, clock)));
    } else {
      if v.Text? {
        TextAdds(flushed.out, v.b, maxChunk);
      } else if v.Array? {
        ValuesAdd(flushed.out, ValueBodies(v.xs));
      } else {
        ValuesAdd(flushed.out, [Whole(v)]);
        assert AllAtoms([Whole(v)]) == AtomsOf(v) + AllAtoms([]);
      }
    }
  }

  lemma BodiesOfOther(wire: seq<StreamFrame>, f: StreamFrame)
    requires !f.Chunk?
    ensures Bodies(wire + [f]) == Bodies(wire)
  {
    assert (wire + [f])[..|wire|] == wire;
    assert Bodies(wire) + [] == Bodies(wire);
  }

  lemma CloseAdds(o: Out, maxChunk: nat)
    requires maxChunk > 0
    ensures Adds(o, DoClose(o, maxChunk), [])
    ensures DoClose(o, maxChunk).err.None? && !o.closed && o.mode.Some? ==> DoClose(o, maxChunk).out.buf == []
  {
    assert Total(o) + [] == Total(o);
    PrefixExtends(Content(o.wire), Content(o.wire), ByteAtoms(o.buf));
    if !o.closed && o.mode.Some? {
      var marked := o.(closed := true);
      var flushed := DoFlush(marked, maxChunk);
      FlushAdds(marked, maxChunk);
      if flushed.err.None? {
        BodiesOfOther(flushed.out.wire, StreamEnd(if o.unbounded then None else Some(flushed.out.sent)));
      }
    }
  }

  lemma StartAdds(o: Out, isSequence: bool, unbounded: bool)
    ensures Adds(o, DoStart(o, isSequence, unbounded), [])
  {
    assert Total(o) + [] == Total(o);
    PrefixExtends(Content(o.wire), Content(o.wire), ByteAtoms(o.buf));
    BodiesOfOther(o.wire, StreamStart(isSequence, unbounded));
  }

  lemma {:induction false} FragmentsSayNothing(pieces: seq<seq<byte>>, meta: Option<Meta>)
    ensures AllAtoms(FragmentBodies(pieces, meta)) == []
    decreases |pieces|
  {
    if pieces != [] {
      FragmentsSayNothing(pieces[1..], None);
      assert FragmentBodies(pieces, meta)[1..] == FragmentBodies(pieces[1..], None);
    }
  }

  lemma ItemAdds(o: Out, item: Cbor, meta: Option<Meta>, maxChunk: nat)
    requires maxChunk > 0 && Encodable(item)
    ensures Adds(o, EmitFragments(o, Encode(item), meta, maxChunk), [])
  {
    var bodies := FragmentBodies(Split(Encode(item), maxChunk), meta);
    FragmentsSayNothing(Split(Encode(item), maxChunk), meta);
    EmitsIsPrefix(o, bodies);
    ContentAfterSending(o, bodies);
    AtomsCut(bodies, Taken(o, |bodies|));
    assert Content(o.wire) + [] == Content(o.wire) && Total(o) + [] == Total(o);
  }

  /** Every call, whatever it is. */
  lemma DoAdds(o: Out, op: Op, maxChunk: nat)
    requires maxChunk > 0 && OpOk(op)
    ensures Adds(o, Do(o, op, maxChunk), Intended(op))
  {
    match op
    case Start(isSequence, unbounded) => StartAdds(o, isSequence, unbounded);
    case Write(data, clock) =>
      if WrongMode(o, false).None? {
        BytesAdds(o, data, clock, maxChunk);
      }
    case EmitCbor(v, clock) =>
      if WrongMode(o, false).None? {
        if v.Bytes? {
          BytesAdds(o, v.b, clock, maxChunk);
        } else {
          ValueAdds(o, v, clock, maxChunk);
        }
      }
    case EmitListItem(item, meta) =>
      if WrongMode(o, true).None? {
        ItemAdds(o, item, meta, maxChunk);
      }
    case Flush => FlushAdds(o, maxChunk);
    case Close => CloseAdds(o, maxChunk);
  }

  // ---- Runs ------------------------------------------------------------------------

  /**
    Nothing is lost, repeated or reordered, for any ageing of the buffer: after a
    run that succeeded, the wire and the buffer together are what was written; and
    at any moment, also behind a closed gate or a refused frame, the wire is a
    prefix of it.
  */
  lemma {:induction false} RunAdds(ops: seq<Op>, credit: Option<nat>, refused: set<nat>, maxChunk: nat)
    requires maxChunk > 0 && OpsOk(ops)
    ensures var s := Run(Opened(credit, refused), ops, maxChunk);
            (s.err.None? ==> Total(s.out) == AllIntended(ops)) && Prefix(Total(s.out), AllIntended(ops))
            && Prefix(Content(s.out.wire), AllIntended(ops))
  {
    if ops != [] {
      var before, op := ops[..|ops| - 1], ops[|ops| - 1];
      var s := Run(Opened(credit, refused), before, maxChunk);
      RunAdds(before, credit, refused, maxChunk);
      hide Total, Prefix;
      if s.err.None? {
        DoAdds(s.out, op, maxChunk);
      } else {
        PrefixExtends(Total(s.out), AllIntended(before), Intended(op));
      }
      WireIsPrefix(Run(Opened(credit, refused), ops, maxChunk).out, AllIntended(ops));
    }
  }

  lemma WireIsPrefix(o: Out, intended: seq<Atom>)
    requires Prefix(Total(o), intended)
    ensures Prefix(Content(o.wire), intended)
  {
    assert Content(o.wire) == Total(o)[..|Content(o.wire)|];
  }

  lemma PrefixOfItself(a: seq<Atom>)
    ensures Prefix(a, a)
  {
  }

  // ---- A handler that goes on ----------------------------------------------------------

  /** A handler that goes on after a failure, which covers one that does not. */
  function RunOn(o: Out, ops: seq<Op>, maxChunk: nat): Out
    requires maxChunk > 0 && OpsOk(ops)
  {
    if ops == [] then o
    else Do(RunOn(o, ops[..|ops| - 1], maxChunk), ops[|ops| - 1], maxChunk).out
  }

  /** What is left of the second when some of it is dropped. */
  predicate Subsequence(a: seq<Atom>, b: seq<Atom>) {
    if a == [] then true
    else if b == [] then false
    else
      (a[|a| - 1] == b[|b| - 1] && Subsequence(a[..|a| - 1], b[..|b| - 1])) || Subsequence(a, b[..|b| - 1])
  }

  lemma {:induction false} BothLonger(a: seq<Atom>, b: seq<Atom>, c: seq<Atom>)
    requires Subsequence(a, b)
    ensures Subsequence(a + c, b + c)
    decreases |c|
  {
    if c == [] {
      assert a + c == a && b + c == b;
    } else {
      var init, last := c[..|c| - 1], c[|c| - 1];
      BothLonger(a, b, init);
      assert a + c == a + init + [last] && b + c == b + init + [last];
      assert (a + c)[..|a + c| - 1] == a + init && (b + c)[..|b + c| - 1] == b + init;
    }
  }

  lemma {:induction false} DropLast(a: seq<Atom>, b: seq<Atom>)
    requires a != [] && Subsequence(a, b)
    ensures Subsequence(a[..|a| - 1], b)
    decreases |b|
  {
    var short := a[..|a| - 1];
    if short != [] {
      if Subsequence(a, b[..|b| - 1]) {
        DropLast(a, b[..|b| - 1]);
      }
    }
  }

  lemma {:induction false} PrefixIsSubsequence(p: seq<Atom>, a: seq<Atom>, b: seq<Atom>)
    requires Prefix(p, a) && Subsequence(a, b)
    ensures Subsequence(p, b)
    decreases |a|
  {
    if p != a {
      var short := a[..|a| - 1];
      DropLast(a, b);
      assert p == short[..|p|];
      PrefixIsSubsequence(p, short, b);
    }
  }

  /**
    A handler that goes on after failures: what was lost is lost, and the rest is
    neither repeated nor reordered.
  */
  lemma {:induction false} GoingOnKeepsOrder(ops: seq<Op>, credit: Option<nat>, refused: set<nat>, maxChunk: nat)
    requires maxChunk > 0 && OpsOk(ops)
    ensures var o := RunOn(Opened(credit, refused), ops, maxChunk);
            Subsequence(Total(o), AllIntended(ops)) && Subsequence(Content(o.wire), AllIntended(ops))
  {
    if ops != [] {
      var before, op := ops[..|ops| - 1], ops[|ops| - 1];
      var o := RunOn(Opened(credit, refused), before, maxChunk);
      GoingOnKeepsOrder(before, credit, refused, maxChunk);
      DoAdds(o, op, maxChunk);
      hide Subsequence, Total, Prefix, Do;
      BothLonger(Total(o), AllIntended(before), Intended(op));
      var out := Do(o, op, maxChunk).out;
      PrefixIsSubsequence(Total(out), Total(o) + Intended(op), AllIntended(ops));
      PrefixOfItself(Total(out));
      WireIsPrefix(out, Total(out));
      PrefixIsSubsequence(Content(out.wire), Total(out), AllIntended(ops));
    }
  }

  lemma RunNext(o: Out, before: seq<Op>, op: Op, maxChunk: nat)
    requires maxChunk > 0 && OpsOk(before) && OpOk(op)
    ensures OpsOk(before + [op])
    ensures Run(o, before + [op], maxChunk)
         == var s := Run(o, before, maxChunk);
            if s.err.Some? then s else Do(s.out, op, maxChunk)
  {
    assert (before + [op])[..|before|] == before;
  }

  predicate NoClose(ops: seq<Op>) {
    forall i :: 0 <= i < |ops| ==> !ops[i].Close?
  }

  lemma {:induction false} StaysOpen(ops: seq<Op>, credit: Option<nat>, refused: set<nat>, maxChunk: nat)
    requires maxChunk > 0 && OpsOk(ops) && NoClose(ops)
    ensures Run(Opened(credit, refused), ops, maxChunk).err.None? ==>
              Open(Run(Opened(credit, refused), ops, maxChunk).out)
  {
    if ops != [] {
      var before, op := ops[..|ops| - 1], ops[|ops| - 1];
      StaysOpen(before, credit, refused, maxChunk);
      var s := Run(Opened(credit, refused), before, maxChunk);
      hide Open;
      if s.err.None? && Do(s.out, op, maxChunk).err.None? {
        DoStaysOpen(s.out, op, maxChunk);
      }
    }
  }

  /** The stream so far: nothing before it is started, then its STREAM_START and its chunks, numbered from 0. */
  predicate Shaped(o: Out) {
    match o.mode
    case None => o.wire == []
    case Some(isSequence) => o.wire == [StreamStart(isSequence, o.unbounded)] + ChunksFrom(0, Bodies(o.wire))
  }

  predicate Open(o: Out) {
    !o.closed && (o.mode.None? ==> o.buf == []) && o.sent == |Bodies(o.wire)| && Shaped(o)
  }

  lemma ChunksAppend(n: nat, a: seq<Body>, b: seq<Body>)
    ensures ChunksFrom(n, a) + ChunksFrom(n + |a|, b) == ChunksFrom(n, a + b)
  {
  }

  lemma EmitsStaysOpen(o: Out, bodies: seq<Body>)
    requires Open(o) && (o.mode.None? ==> bodies == []) && Emits(o, bodies).err.None?
    ensures Open(Emits(o, bodies).out) && Emits(o, bodies).out.unbounded == o.unbounded
    ensures Emits(o, bodies).out.mode == o.mode && Emits(o, bodies).out.buf == o.buf
  {
    EmitsIsPrefix(o, bodies);
    assert bodies[..|bodies|] == bodies;
    BodiesAppend(o.wire, o.sent, bodies);
    if o.mode.Some? {
      MoreChunks(StreamStart(o.mode.value, o.unbounded), Bodies(o.wire), bodies);
    }
    hide ChunksFrom, Bodies, Reach;
    assert o.wire + [] == o.wire;
    assert o.mode.None? ==> Emits(o, bodies).out.wire == o.wire;
  }

  lemma MoreChunks(start: StreamFrame, a: seq<Body>, b: seq<Body>)
    ensures [start] + ChunksFrom(0, a) + ChunksFrom(|a|, b) == [start] + ChunksFrom(0, a + b)
  {
    ChunksAppend(0, a, b);
    hide ChunksFrom;
    assert [start] + ChunksFrom(0, a) + ChunksFrom(|a|, b) == [start] + (ChunksFrom(0, a) + ChunksFrom(0 + |a|, b));
  }

  lemma StartStaysOpen(o: Out, isSequence: bool, unbounded: bool)
    requires Open(o) && DoStart(o, isSequence, unbounded).err.None?
    ensures Open(DoStart(o, isSequence, unbounded).out)
  {
    BodiesOfOther(o.wire, StreamStart(isSequence, unbounded));
    assert ChunksFrom(0, []) == [];
  }

  lemma DoStaysOpen(o: Out, op: Op, maxChunk: nat)
    requires maxChunk > 0 && OpOk(op) && Open(o) && !op.Close? && Do(o, op, maxChunk).err.None?
    ensures Open(Do(o, op, maxChunk).out)
  {
    hide Open;
    match op
    case Start(isSequence, unbounded) => StartStaysOpen(o, isSequence, unbounded);
    case Write(data, clock) =>
      if WrongMode(o, false).None? {
        BytesStaysOpen(o, data, clock, maxChunk);
      }
    case EmitCbor(v, clock) =>
      if WrongMode(o, false).None? {
        if v.Bytes? {
          BytesStaysOpen(o, v.b, clock, maxChunk);
        } else {
          ValueStaysOpen(o, v, maxChunk);
        }
      }
    case EmitListItem(item, meta) =>
      if WrongMode(o, true).None? {
        EmitsStaysOpen(o, FragmentBodies(Split(Encode(item), maxChunk), meta));
      }
    case Flush => FlushStaysOpen(o, maxChunk);
  }

  lemma FlushStaysOpen(o: Out, maxChunk: nat)
    requires maxChunk > 0 && Open(o) && DoFlush(o, maxChunk).err.None?
    ensures Open(DoFlush(o, maxChunk).out)
    ensures DoFlush(o, maxChunk).out.unbounded == o.unbounded && DoFlush(o, maxChunk).out.mode == o.mode
  {
    EmitsStaysOpen(o.(buf := [], oldest := None), ByteBodies(Split(o.buf, maxChunk)));
  }

  lemma BytesStaysOpen(o: Out, data: seq<byte>, clock: Clock, maxChunk: nat)
    requires maxChunk > 0 && Open(o) && o.mode.Some? && DoBytes(o, data, clock, maxChunk).err.None?
    ensures Open(DoBytes(o, data, clock, maxChunk).out)
  {
    if data != [] {
      var (after, due) := Coalesce(o, data, clock);
      if due.Some? {
        EmitsStaysOpen(after, ByteBodies(Split(due.value, maxChunk)));
      }
    }
  }

  lemma ValueStaysOpen(o: Out, v: Cbor, maxChunk: nat)
    requires maxChunk > 0 && Open(o) && o.mode.Some? && DoValue(o, v, maxChunk).err.None?
    ensures Open(DoValue(o, v, maxChunk).out)
  {
    hide Open;
    var flushed := DoFlush(o, maxChunk);
    FlushStaysOpen(o, maxChunk);
    match v
    case Text(b) => EmitsStaysOpen(flushed.out, TextBodies(SplitText(b, maxChunk).pieces));
    case Array(xs) => EmitsStaysOpen(flushed.out, ValueBodies(xs));
    case _ => EmitsStaysOpen(flushed.out, [Whole(v)]);
  }

  /** A stream that was started and closed: its STREAM_START, its chunks in order, and their exact count, or none. */
  predicate Complete(o: Out) {
    o.mode.Some?
    && o.wire == [StreamStart(o.mode.value, o.unbounded)] + ChunksFrom(0, Bodies(o.wire))
                 + [StreamEnd(if o.unbounded then None else Some(|Bodies(o.wire)|))]
  }

  /**
    The round trip of a scalar stream: whatever was written and emitted, in
    whatever portions, however the buffer aged, a closed stream carries exactly
    that.  On any stream, STREAM_START comes first, chunks are numbered 0, 1, 2, …,
    and STREAM_END, the only one, states exactly how many there were, or nothing
    for an unbounded stream.
  */
  lemma ClosedStreamIsComplete(ops: seq<Op>, credit: Option<nat>, refused: set<nat>, maxChunk: nat)
    requires maxChunk > 0 && OpsOk(ops) && NoClose(ops)
    requires Run(Opened(credit, refused), ops + [Close], maxChunk).err.None?
    ensures var o := Run(Opened(credit, refused), ops + [Close], maxChunk).out;
            Content(o.wire) == AllIntended(ops) && (o.mode.None? ==> o.wire == []) && (o.mode.Some? ==> Complete(o))
  {
    hide Run, Do, Open, Complete, Content, AllIntended, Prefix, Total;
    var before := Run(Opened(credit, refused), ops, maxChunk).out;
    RunNext(Opened(credit, refused), ops, Close, maxChunk);
    RunAdds(ops + [Close], credit, refused, maxChunk);
    NothingIntended(ops);
    StaysOpen(ops, credit, refused, maxChunk);
    CloseIs(before, maxChunk);
    NothingHeldAfterClose(before, maxChunk);
    NothingHeld(Do(before, Close, maxChunk).out);
    if before.mode.Some? {
      CloseEnds(before, maxChunk);
    } else {
      CloseUnstarted(before, maxChunk);
    }
  }

  lemma NothingIntended(ops: seq<Op>)
    ensures AllIntended(ops + [Close]) == AllIntended(ops)
  {
    assert (ops + [Close])[..|ops|] == ops;
    assert AllIntended(ops) + [] == AllIntended(ops);
  }

  lemma CloseIs(o: Out, maxChunk: nat)
    requires maxChunk > 0
    ensures Do(o, Close, maxChunk) == DoClose(o, maxChunk)
  {
  }

  lemma CloseUnstarted(o: Out, maxChunk: nat)
    requires maxChunk > 0 && Open(o) && o.mode.None?
    ensures DoClose(o, maxChunk).out.mode.None? && DoClose(o, maxChunk).out.wire == []
  {
  }

  lemma NothingHeldAfterClose(o: Out, maxChunk: nat)
    requires maxChunk > 0 && Open(o) && DoClose(o, maxChunk).err.None?
    ensures DoClose(o, maxChunk).out.buf == []
  {
    CloseAdds(o, maxChunk);
  }

  lemma CloseEnds(o: Out, maxChunk: nat)
    requires maxChunk > 0 && Open(o) && o.mode.Some? && DoClose(o, maxChunk).err.None?
    ensures Complete(DoClose(o, maxChunk).out) && DoClose(o, maxChunk).out.mode == o.mode
  {
    var flushed := DoFlush(o, maxChunk).out;
    FlushIgnoresClosed(o, maxChunk);
    FlushStaysOpen(o, maxChunk);
    BodiesOfOther(flushed.wire, StreamEnd(if o.unbounded then None else Some(flushed.sent)));
  }

  lemma FlushIgnoresClosed(o: Out, maxChunk: nat)
    requires maxChunk > 0
    ensures DoFlush(o.(closed := true), maxChunk)
         == Step(DoFlush(o, maxChunk).out.(closed := true), DoFlush(o, maxChunk).err)
  {
    var bodies := ByteBodies(Split(o.buf, maxChunk));
    EmitsIsPrefix(o.(buf := [], oldest := None), bodies);
    EmitsIsPrefix(o.(closed := true, buf := [], oldest := None), bodies);
  }

  // ---- What fits a chunk ------------------------------------------------------------

  /** A chunk of bytes, of text or of an item holds 1 to maxChunk bytes, and text whole characters. */
  predicate Fits(body: Body, maxChunk: nat) {
    match body
    case Whole(Bytes(b)) => 1 <= |b| <= maxChunk
    case Whole(Text(b)) => 1 <= |b| <= maxChunk && IsUtf8(b)
    case Whole(_) => true
    case Fragment(b, _) => 1 <= |b| <= maxChunk
  }

  predicate AllBodiesFit(bodies: seq<Body>, maxChunk: nat) {
    forall i :: 0 <= i < |bodies| ==> Fits(bodies[i], maxChunk)
  }

  // The elements of an emitted array are the handler's own chunks, of any size.
  predicate NoArrays(ops: seq<Op>) {
    forall i :: 0 <= i < |ops| ==> !(ops[i].EmitCbor? && ops[i].v.Array?)
  }

  lemma EmitsFit(o: Out, bodies: seq<Body>, maxChunk: nat)
    requires AllBodiesFit(Bodies(o.wire), maxChunk) && AllBodiesFit(bodies, maxChunk)
    ensures AllBodiesFit(Bodies(Emits(o, bodies).out.wire), maxChunk)
  {
    EmitsIsPrefix(o, bodies);
    BodiesAppend(o.wire, o.sent, bodies[..Taken(o, |bodies|)]);
  }

  lemma BytesFit(o: Out, data: seq<byte>, maxChunk: nat)
    requires maxChunk > 0 && AllBodiesFit(Bodies(o.wire), maxChunk)
    ensures AllBodiesFit(Bodies(EmitBytes(o, data, maxChunk).out.wire), maxChunk)
  {
    SplitFits(data, maxChunk);
    EmitsFit(o, ByteBodies(Split(data, maxChunk)), maxChunk);
  }

  lemma FlushFits(o: Out, maxChunk: nat)
    requires maxChunk > 0 && AllBodiesFit(Bodies(o.wire), maxChunk)
    ensures AllBodiesFit(Bodies(DoFlush(o, maxChunk).out.wire), maxChunk)
  {
    BytesFit(o.(buf := [], oldest := None), o.buf, maxChunk);
  }

  lemma DoBytesFits(o: Out, data: seq<byte>, clock: Clock, maxChunk: nat)
    requires maxChunk > 0 && AllBodiesFit(Bodies(o.wire), maxChunk)
    ensures AllBodiesFit(Bodies(DoBytes(o, data, clock, maxChunk).out.wire), maxChunk)
  {
    if data != [] {
      var (after, due) := Coalesce(o, data, clock);
      if due.Some? {
        BytesFit(after, due.value, maxChunk);
      }
    }
  }

  lemma DoValueFits(o: Out, v: Cbor, maxChunk: nat)
    requires maxChunk > 0 && AllBodiesFit(Bodies(o.wire), maxChunk)
    requires !v.Bytes? && !v.Array? && (v.Text? ==> IsUtf8(v.b))
    ensures AllBodiesFit(Bodies(DoValue(o, v, maxChunk).out.wire), maxChunk)
  {
    var flushed := DoFlush(o, maxChunk);
    FlushFits(o, maxChunk);
    if v.Text? {
      SplitTextIsFaithful(v.b, maxChunk);
      EmitsFit(flushed.out, TextBodies(SplitText(v.b, maxChunk).pieces), maxChunk);
    } else {
      EmitsFit(flushed.out, [Whole(v)], maxChunk);
    }
  }

  lemma DoFits(o: Out, op: Op, maxChunk: nat)
    requires maxChunk > 0 && OpOk(op) && AllBodiesFit(Bodies(o.wire), maxChunk)
    requires !(op.EmitCbor? && op.v.Array?)
    ensures AllBodiesFit(Bodies(Do(o, op, maxChunk).out.wire), maxChunk)
  {
    hide Bodies, Emits, Encode, Split, IsUtf8;
    match op
    case Start(isSequence, unbounded) => BodiesOfOther(o.wire, StreamStart(isSequence, unbounded));
    case Write(data, clock) => DoBytesFits(o, data, clock, maxChunk);
    case EmitCbor(v, clock) =>
      if v.Bytes? {
        DoBytesFits(o, v.b, clock, maxChunk);
      } else {
        DoValueFits(o, v, maxChunk);
      }
    case EmitListItem(item, meta) =>
      SplitFits(Encode(item), maxChunk);
      EmitsFit(o, FragmentBodies(Split(Encode(item), maxChunk), meta), maxChunk);
    case Flush => FlushFits(o, maxChunk);
    case Close =>
      FlushFits(o.(closed := true), maxChunk);
      var flushed := DoFlush(o.(closed := true), maxChunk).out;
      BodiesOfOther(flushed.wire, StreamEnd(if o.unbounded then None else Some(flushed.sent)));
  }

  lemma {:induction false} ChunksFit(ops: seq<Op>, credit: Option<nat>, refused: set<nat>, maxChunk: nat)
    requires maxChunk > 0 && OpsOk(ops) && NoArrays(ops)
    ensures AllBodiesFit(Bodies(Run(Opened(credit, refused), ops, maxChunk).out.wire), maxChunk)
  {
    if ops != [] {
      var before := ops[..|ops| - 1];
      ChunksFit(before, credit, refused, maxChunk);
      if Run(Opened(credit, refused), before, maxChunk).err.None? {
        DoFits(Run(Opened(credit, refused), before, maxChunk).out, ops[|ops| - 1], maxChunk);
      }
    }
  }
}
