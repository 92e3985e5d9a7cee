/**
  From a handler's calls on its output stream to what the reader at the other end
  finds, for both kinds of stream and both kinds of reader.
*/
module StreamLinks {
  import opened CborCodec
  import opened ItemReassembly
  import opened SequenceRuns
  import opened StreamContent
  import opened StreamRuns
  import opened Wrappers
  import D = Demux
  import O = OutputStream
  import P = PeerResponse
  import PR = PeerReads

  // ---- What scalar chunks are ----------------------------------------------------------------------

  /** Whole values a head can state. */
  predicate AllWhole(bodies: seq<O.Body>) {
    forall i :: 0 <= i < |bodies| ==> bodies[i].Whole? && Encodable(bodies[i].v)
  }

  lemma EmitsWhole(o: O.Out, bodies: seq<O.Body>)
    requires AllWhole(Bodies(o.wire)) && AllWhole(bodies)
    ensures AllWhole(Bodies(O.Emits(o, bodies).out.wire)) && O.Emits(o, bodies).out.mode == o.mode
  {
    EmitsIsPrefix(o, bodies);
    BodiesAppend(o.wire, o.sent, bodies[..Taken(o, |bodies|)]);
  }

  lemma BytesWhole(o: O.Out, data: seq<byte>, maxChunk: nat)
    requires 0 < maxChunk < TWO_64 && AllWhole(Bodies(o.wire))
    ensures AllWhole(Bodies(O.EmitBytes(o, data, maxChunk).out.wire))
    ensures O.EmitBytes(o, data, maxChunk).out.mode == o.mode
  {
    SplitFits(data, maxChunk);
    EmitsWhole(o, O.ByteBodies(O.Split(data, maxChunk)));
  }

  lemma FlushWhole(o: O.Out, maxChunk: nat)
    requires 0 < maxChunk < TWO_64 && AllWhole(Bodies(o.wire))
    ensures AllWhole(Bodies(O.DoFlush(o, maxChunk).out.wire)) && O.DoFlush(o, maxChunk).out.mode == o.mode
  {
    BytesWhole(o.(buf := [], oldest := None), o.buf, maxChunk);
  }

  lemma DoBytesWhole(o: O.Out, data: seq<byte>, clock: O.Clock, maxChunk: nat)
    requires 0 < maxChunk < TWO_64 && AllWhole(Bodies(o.wire))
    ensures AllWhole(Bodies(O.DoBytes(o, data, clock, maxChunk).out.wire))
    ensures O.DoBytes(o, data, clock, maxChunk).out.mode == o.mode
  {
    if data != [] {
      var (after, due) := O.Coalesce(o, data, clock);
      if due.Some? {
        BytesWhole(after, due.value, maxChunk);
      }
    }
  }

  lemma DoValueWhole(o: O.Out, v: Cbor, maxChunk: nat)
    requires 0 < maxChunk < TWO_64 && AllWhole(Bodies(o.wire)) && Encodable(v) && (v.Text? ==> O.IsUtf8(v.b))
    ensures AllWhole(Bodies(O.DoValue(o, v, maxChunk).out.wire)) && O.DoValue(o, v, maxChunk).out.mode == o.mode
  {
    var flushed := O.DoFlush(o, maxChunk);
    FlushWhole(o, maxChunk);
    match v
    case Text(b) =>
      SplitTextIsFaithful(b, maxChunk);
      EmitsWhole(flushed.out, O.TextBodies(O.SplitText(b, maxChunk).pieces));
    case Array(xs) => EmitsWhole(flushed.out, O.ValueBodies(xs));
    case _ => EmitsWhole(flushed.out, [O.Whole(v)]);
  }

  lemma DoWhole(o: O.Out, op: O.Op, maxChunk: nat)
    requires 0 < maxChunk < TWO_64 && O.OpOk(op) && o.mode != Some(true) && AllWhole(Bodies(o.wire))
    ensures AllWhole(Bodies(O.Do(o, op, maxChunk).out.wire))
  {
    hide Bodies, O.Emits, O.Split, O.IsUtf8, Encode;
    match op
    case Start(isSequence, unbounded) => BodiesOfOther(o.wire, O.StreamStart(isSequence, unbounded));
    case Write(data, clock) => DoBytesWhole(o, data, clock, maxChunk);
    case EmitCbor(v, clock) =>
      if v.Bytes? {
        DoBytesWhole(o, v.b, clock, maxChunk);
      } else {
        DoValueWhole(o, v, maxChunk);
      }
    case EmitListItem(item, meta) =>
    case Flush => FlushWhole(o, maxChunk);
    case Close =>
      FlushWhole(o.(closed := true), maxChunk);
      var flushed := O.DoFlush(o.(closed := true), maxChunk).out;
      BodiesOfOther(flushed.wire, O.StreamEnd(if o.unbounded then None else Some(flushed.sent)));
  }

  lemma {:induction false} RunWhole(ops: seq<O.Op>, credit: Option<nat>, refused: set<nat>, maxChunk: nat)
    requires 0 < maxChunk < TWO_64 && OpsOk(ops)
    ensures var o := Run(O.Opened(credit, refused), ops, maxChunk).out;
            o.mode != Some(true) ==> AllWhole(Bodies(o.wire))
  {
    if ops != [] {
      var before, op := ops[..|ops| - 1], ops[|ops| - 1];
      RunWhole(before, credit, refused, maxChunk);
      var s := Run(O.Opened(credit, refused), before, maxChunk);
      if s.err.None? {
        if s.out.mode == Some(true) {
          ModeStays(s.out, op, maxChunk);
        } else {
          DoWhole(s.out, op, maxChunk);
        }
        hide O.Do;
      }
    }
  }

  // ---- A stream's frames at the reader ---------------------------------------------------------------

  /** A chunk's payload: a value's encoding (every value a handler can hold has one), or an item's fragment. */
  function Payload(body: O.Body): seq<byte> {
    match body
    case Whole(v) => if Encodable(v) then Encode(v) else []
    case Fragment(bytes, _) => bytes
  }

  function MetaOf(body: O.Body): Option<O.Meta> {
    if body.Fragment? then body.meta else None
  }

  /** A stream's frames as a request's demux meets them, each chunk within its window and whole. */
  function Received(s: D.Stream, wire: seq<O.StreamFrame>): seq<D.RequestFrame> {
    seq(|wire|, i requires 0 <= i < |wire| =>
      match wire[i]
      case StreamStart(isSequence, _) => D.Start(s, isSequence)
      case Chunk(_, body) => D.ChunkIn(s, Payload(body), MetaOf(body), true, Good)
      case StreamEnd(_) => D.StreamEnd(s))
  }

  /** The same at the caller of a peer call, whose STREAM_START names the output. */
  function Answered(s: P.Stream, output: Option<P.Name>, wire: seq<O.StreamFrame>): seq<P.PeerFrame> {
    seq(|wire|, i requires 0 <= i < |wire| =>
      match wire[i]
      case StreamStart(isSequence, _) => P.Start(Some(s), output, isSequence)
      case Chunk(_, body) => P.ChunkIn(Some(s), Some(Payload(body)), MetaOf(body), Good)
      case StreamEnd(_) => P.StreamEnd(Some(s)))
  }

  function Whole(isSequence: bool, unbounded: bool, bodies: seq<O.Body>): seq<O.StreamFrame> {
    [O.StreamStart(isSequence, unbounded)] + ChunksFrom(0, bodies)
    + [O.StreamEnd(if unbounded then None else Some(|bodies|))]
  }

  lemma ReceivedSequence(s: D.Stream, output: Option<P.Name>, unbounded: bool, bodies: seq<O.Body>)
    requires Fragments(bodies)
    ensures Received(s, Whole(true, unbounded, bodies)) == [D.Start(s, true)] + D.Chunks(s, bodies) + [D.StreamEnd(s)]
    ensures Answered(s, output, Whole(true, unbounded, bodies))
         == [P.Start(Some(s), output, true)] + P.Chunks(s, bodies) + [P.StreamEnd(Some(s))]
  {
  }

  // ---- Sequence streams --------------------------------------------------------------------------

  /**
    A sequence stream from end to end: whatever calls its handler makes, if none
    fails and it closes the stream, a reader finds exactly the items emitted, each
    with its metadata and in order, and then the end, however the frames were
    interleaved with those of other streams.
  */
  lemma SequenceReachesReader(ops: seq<O.Op>, credit: Option<nat>, refused: set<nat>, maxChunk: nat,
                              frames: seq<D.RequestFrame>, s: D.Stream)
    requires maxChunk > 0 && OpsOk(ops) && NoClose(ops) && D.NoStops(frames)
    requires var r := Run(O.Opened(credit, refused), ops + [O.Close], maxChunk);
             r.err.None? && r.out.mode == Some(true) && D.OfStream(frames, s) == Received(s, r.out.wire)
    ensures D.Reads(D.Fold(D.Idle, frames), D.Queue(D.AsEntries(Deliveries(ItemsOf(ops))), true))
  {
    var o := Run(O.Opened(credit, refused), ops + [O.Close], maxChunk).out;
    ClosedSequenceIsComplete(ops, credit, refused, maxChunk);
    hide ListBodies, ItemsOf, Run;
    ReceivedSequence(s, None, o.unbounded, ListBodies(ItemsOf(ops), maxChunk));
    D.SequenceArrives(frames, s, ItemsOf(ops), maxChunk);
  }

  /** And as an output of a peer call: the caller finds exactly the items, on that output and in order. */
  lemma SequenceReachesCaller(ops: seq<O.Op>, credit: Option<nat>, refused: set<nat>, maxChunk: nat,
                              frames: seq<P.PeerFrame>, s: P.Stream, output: Option<P.Name>)
    requires maxChunk > 0 && OpsOk(ops) && NoClose(ops)
    requires P.Fold(map[], frames).Some? && P.SoleStream(frames, s, output)
    requires var r := Run(O.Opened(credit, refused), ops + [O.Close], maxChunk);
             r.err.None? && r.out.mode == Some(true) && P.OwnFrames(frames, s) == Answered(s, output, r.out.wire)
    ensures P.Of(P.Items(map[], frames + [P.End]), output) == P.OfDeliveries(output, Deliveries(ItemsOf(ops)))
  {
    var o := Run(O.Opened(credit, refused), ops + [O.Close], maxChunk).out;
    ClosedSequenceIsComplete(ops, credit, refused, maxChunk);
    hide ListBodies, ItemsOf, Run;
    ReceivedSequence(s, output, o.unbounded, ListBodies(ItemsOf(ops), maxChunk));
    P.OutputArrives(frames, s, output, ItemsOf(ops), maxChunk);
  }

  /** The list itself: emitted item by item under an open gate, each frame taken, it is what the reader finds. */
  lemma ListReachesReader(items: seq<ListItem>, unbounded: bool, refused: set<nat>, maxChunk: nat,
                          frames: seq<D.RequestFrame>, s: D.Stream)
    requires maxChunk > 0 && ItemsOk(items) && D.NoStops(frames) && OpsOk(EmitList(items, unbounded) + [O.Close])
    requires var wire := Run(O.Opened(None, refused), EmitList(items, unbounded) + [O.Close], maxChunk).out.wire;
             TakesAll(refused, |ListBodies(items, maxChunk)| + 2) && D.OfStream(frames, s) == Received(s, wire)
    ensures D.Reads(D.Fold(D.Idle, frames), D.Queue(D.AsEntries(Deliveries(items)), true))
  {
    ListIsSent(items, unbounded, refused, maxChunk);
    hide ListBodies, Run;
    ReceivedSequence(s, None, unbounded, ListBodies(items, maxChunk));
    D.SequenceArrives(frames, s, items, maxChunk);
  }

  // ---- Scalar streams ----------------------------------------------------------------------------

  function Values(bodies: seq<O.Body>): (entries: seq<D.Entry>)
    requires AllWhole(bodies)
    ensures |entries| == |bodies|
  {
    seq(|bodies|, i requires 0 <= i < |bodies| => D.Value(bodies[i].v, None))
  }

  /** What a reader of a queue has read. */
  function Read(entries: seq<D.Entry>): seq<Atom> {
    if entries == [] then []
    else (if entries[0].Value? then AtomsOf(entries[0].v) else []) + Read(entries[1..])
  }

  lemma {:induction false} ReadsAtoms(bodies: seq<O.Body>)
    requires AllWhole(bodies)
    ensures Read(Values(bodies)) == AllAtoms(bodies)
    decreases |bodies|
  {
    if bodies != [] {
      ReadsAtoms(bodies[1..]);
      assert Values(bodies)[1..] == Values(bodies[1..]);
    }
  }

  function ScalarChunks(s: D.Stream, bodies: seq<O.Body>): seq<D.RequestFrame>
    requires AllWhole(bodies)
  {
    seq(|bodies|, i requires 0 <= i < |bodies| => D.ChunkIn(s, Encode(bodies[i].v), None, true, Good))
  }

  lemma ReceivedScalar(s: D.Stream, unbounded: bool, bodies: seq<O.Body>)
    requires AllWhole(bodies)
    ensures Received(s, Whole(false, unbounded, bodies))
         == [D.Start(s, false)] + ScalarChunks(s, bodies) + [D.StreamEnd(s)]
  {
  }

  lemma AdvanceScalar(s: D.Stream, items: seq<D.Entry>, v: Cbor)
    requires Encodable(v)
    ensures D.Advance(D.Open(items, None), D.ChunkIn(s, Encode(v), None, true, Good))
         == D.Open(items + [D.Value(v, None)], None)
  {
    DecodeEncode(v, []);
    assert Encode(v) + [] == Encode(v);
  }

  lemma ScalarSnoc(s: D.Stream, bodies: seq<O.Body>, n: nat)
    requires AllWhole(bodies) && |bodies| == n + 1
    ensures [D.Start(s, false)] + ScalarChunks(s, bodies)
         == [D.Start(s, false)] + ScalarChunks(s, bodies[..n]) + [D.ChunkIn(s, Encode(bodies[n].v), None, true, Good)]
    ensures Values(bodies) == Values(bodies[..n]) + [D.Value(bodies[n].v, None)]
  {
  }

  lemma {:induction false} ScalarStands(s: D.Stream, bodies: seq<O.Body>)
    requires AllWhole(bodies)
    ensures D.Standings([D.Start(s, false)] + ScalarChunks(s, bodies)) == D.Open(Values(bodies), None)
    decreases |bodies|
  {
    var start := D.Start(s, false);
    if bodies == [] {
      D.StandingsSnoc([], start);
      assert [] + [start] == [start] + ScalarChunks(s, bodies);
    } else {
      var n := |bodies| - 1;
      var before, last := bodies[..n], bodies[n];
      ScalarStands(s, before);
      var chunk := D.ChunkIn(s, Encode(last.v), None, true, Good);
      ScalarSnoc(s, bodies, n);
      hide D.Standings, D.Advance, Encode, ScalarChunks, Values;
      D.StandingsSnoc([start] + ScalarChunks(s, before), chunk);
      AdvanceScalar(s, Values(before), last.v);
    }
  }

  lemma ScalarArrives(frames: seq<D.RequestFrame>, s: D.Stream, bodies: seq<O.Body>)
    requires AllWhole(bodies) && D.NoStops(frames)
    requires D.OfStream(frames, s) == [D.Start(s, false)] + ScalarChunks(s, bodies) + [D.StreamEnd(s)]
    ensures D.Reads(D.Fold(D.Idle, frames), D.Queue(Values(bodies), true))
  {
    D.FoldStands(frames, s);
    ScalarStands(s, bodies);
    hide D.Fold, D.OfStream, ScalarChunks, Values;
    D.StandingsSnoc([D.Start(s, false)] + ScalarChunks(s, bodies), D.StreamEnd(s));
    assert Values(bodies) + [] == Values(bodies);
  }

  /**
    A scalar stream from end to end: whatever its handler wrote and emitted, in
    whatever portions and however the buffer aged, if no call failed and the stream
    was closed, its reader finds one value per chunk and no error, and together
    they are exactly what was written.
  */
  lemma ScalarReachesReader(ops: seq<O.Op>, credit: Option<nat>, refused: set<nat>, maxChunk: nat,
                            frames: seq<D.RequestFrame>, s: D.Stream)
    returns (entries: seq<D.Entry>)
    requires 0 < maxChunk < TWO_64 && OpsOk(ops) && NoClose(ops) && D.NoStops(frames)
    requires var r := Run(O.Opened(credit, refused), ops + [O.Close], maxChunk);
             r.err.None? && r.out.mode == Some(false) && D.OfStream(frames, s) == Received(s, r.out.wire)
    ensures D.Reads(D.Fold(D.Idle, frames), D.Queue(entries, true))
    ensures (forall i :: 0 <= i < |entries| ==> entries[i].Value?) && Read(entries) == AllIntended(ops)
  {
    hide Run, AllIntended, AllAtoms, Bodies, D.OfStream, D.Fold, D.Reads, Read, ChunksFrom, Received;
    var o := Run(O.Opened(credit, refused), ops + [O.Close], maxChunk).out;
    ClosedStreamIsComplete(ops, credit, refused, maxChunk);
    RunWhole(ops + [O.Close], credit, refused, maxChunk);
    ReceivedScalar(s, o.unbounded, Bodies(o.wire));
    ScalarArrives(frames, s, Bodies(o.wire));
    ReadsAtoms(Bodies(o.wire));
    entries := Values(Bodies(o.wire));
  }

  // ---- Scalar outputs of a peer call -----------------------------------------------------------------

  /** What a caller has read. */
  function ReadItems(items: seq<P.ResponseItem>): seq<Atom> {
    if items == [] then []
    else
      (match items[0]
       case Data(Got(v), _) => AtomsOf(v)
       case Output(_, Got(v), _) => AtomsOf(v)
       case _ => [])
      + ReadItems(items[1..])
  }

  function AnswerChunks(s: P.Stream, bodies: seq<O.Body>): seq<P.PeerFrame>
    requires AllWhole(bodies)
  {
    seq(|bodies|, i requires 0 <= i < |bodies| => P.ChunkIn(Some(s), Some(Encode(bodies[i].v)), None, Good))
  }

  lemma AnsweredScalar(s: P.Stream, output: Option<P.Name>, unbounded: bool, bodies: seq<O.Body>)
    requires AllWhole(bodies)
    ensures Answered(s, output, Whole(false, unbounded, bodies))
         == [P.Start(Some(s), output, false)] + AnswerChunks(s, bodies) + [P.StreamEnd(Some(s))]
  {
  }

  /** The values themselves, each without metadata, on this output. */
  predicate AllGot(items: seq<P.ResponseItem>, output: Option<P.Name>, bodies: seq<O.Body>)
    requires AllWhole(bodies)
  {
    |items| == |bodies| && forall i :: 0 <= i < |items| ==> PR.On(items[i], output, P.Got(bodies[i].v), None)
  }

  lemma OwedAreGot(s: P.Stream, output: Option<P.Name>, bodies: seq<O.Body>, items: seq<P.ResponseItem>)
    requires AllWhole(bodies) && PR.AllOwed(AnswerChunks(s, bodies), output, items)
    ensures AllGot(items, output, bodies)
  {
    var chunks := AnswerChunks(s, bodies);
    forall i | 0 <= i < |items|
      ensures PR.On(items[i], output, P.Got(bodies[i].v), None)
    {
      assert PR.Owed(chunks[i], output, items[i]);
      DecodeEncode(bodies[i].v, []);
      assert Encode(bodies[i].v) + [] == Encode(bodies[i].v);
    }
  }

  lemma {:induction false} GotAtoms(items: seq<P.ResponseItem>, output: Option<P.Name>, bodies: seq<O.Body>)
    requires AllWhole(bodies) && AllGot(items, output, bodies)
    ensures ReadItems(items) == AllAtoms(bodies)
    decreases |bodies|
  {
    if bodies != [] {
      assert PR.On(items[0], output, P.Got(bodies[0].v), None);
      GotAtoms(items[1..], output, bodies[1..]);
    }
  }

  /**
    And as an output of a peer call: the caller finds one value per chunk on that
    output and no failure, and together they are exactly what was written.
  */
  lemma ScalarReachesCaller(ops: seq<O.Op>, credit: Option<nat>, refused: set<nat>, maxChunk: nat,
                            frames: seq<P.PeerFrame>, s: P.Stream, output: Option<P.Name>)
    returns (items: seq<P.ResponseItem>)
    requires 0 < maxChunk < TWO_64 && OpsOk(ops) && NoClose(ops)
    requires P.Fold(map[], frames).Some? && P.SoleStream(frames, s, output)
    requires var r := Run(O.Opened(credit, refused), ops + [O.Close], maxChunk);
             r.err.None? && r.out.mode == Some(false) && P.OwnFrames(frames, s) == Answered(s, output, r.out.wire)
    ensures P.Of(P.Items(map[], frames + [P.End]), output) == items
    ensures (forall i :: 0 <= i < |items| ==> !P.Fails(items[i])) && ReadItems(items) == AllIntended(ops)
  {
    hide Run, AllIntended, AllAtoms, Bodies, P.OwnFrames, P.Fold, P.Items, P.Of, ReadItems, ChunksFrom, Answered;
    hide P.SoleStream, AnswerChunks, PR.AllOwed;
    var o := Run(O.Opened(credit, refused), ops + [O.Close], maxChunk).out;
    ClosedStreamIsComplete(ops, credit, refused, maxChunk);
    RunWhole(ops + [O.Close], credit, refused, maxChunk);
    var bodies := Bodies(o.wire);
    AnsweredScalar(s, output, o.unbounded, bodies);
    AnswersAreChunks(s, bodies);
    items := PR.ScalarOutputReads(frames, s, output, AnswerChunks(s, bodies));
    OwedAreGot(s, output, bodies, items);
    GotAtoms(items, output, bodies);
  }

  lemma AnswersAreChunks(s: P.Stream, bodies: seq<O.Body>)
    requires AllWhole(bodies)
    ensures PR.ChunksOf(AnswerChunks(s, bodies), s)
  {
  }
}
