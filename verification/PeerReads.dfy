/**
  What the caller of a peer call reads when the response's chunks are damaged or
  malformed, and when its streams are cut.
*/
module PeerReads {
  import opened CborCodec
  import opened ItemReassembly
  import opened PeerResponse
  import opened Wrappers
  import O = OutputStream

  // ---- Scalar outputs, whatever their chunks hold -----------------------------------------------------

  predicate Intact(f: PeerFrame) {
    f.ChunkIn? && f.payload.Some? && f.checksum == Good
  }

  predicate On(item: ResponseItem, output: Option<Name>, o: Outcome, meta: Option<O.Meta>) {
    match item
    case Data(p, m) => output.None? && p == o && m == meta
    case Output(name, p, m) => output == Some(name) && p == o && m == meta
    case Log => false
  }

  /** What the reader of a scalar output is owed for one chunk: its value, or one failure that says why not. */
  predicate Owed(f: PeerFrame, output: Option<Name>, item: ResponseItem) {
    if !Intact(f) then On(item, output, Failed(Protocol), None)
    else
      match Decode(f.payload.value)
      case Done(v, _) => On(item, output, Got(v), f.meta)
      case _ => On(item, output, Failed(Decoding), None)
  }

  predicate ChunksOf(chunks: seq<PeerFrame>, s: Stream) {
    forall i :: 0 <= i < |chunks| ==> chunks[i].ChunkIn? && chunks[i].stream == Some(s)
  }

  predicate AllOwed(chunks: seq<PeerFrame>, output: Option<Name>, items: seq<ResponseItem>) {
    |items| == |chunks| && forall i :: 0 <= i < |chunks| ==> Owed(chunks[i], output, items[i])
  }

  lemma AdvanceOwed(output: Option<Name>, out: seq<ResponseItem>, f: PeerFrame) returns (item: ResponseItem)
    requires f.ChunkIn?
    ensures Owed(f, output, item)
    ensures Advance(Live(PeerStream(output, None), out), f) == Live(PeerStream(output, None), out + [item])
  {
    item := ChunkItems(PeerStream(output, None), f).0[0];
  }

  lemma {:induction false} ScalarStanding(s: Stream, output: Option<Name>, chunks: seq<PeerFrame>)
    returns (items: seq<ResponseItem>)
    requires ChunksOf(chunks, s)
    ensures AllOwed(chunks, output, items)
    ensures Standings([Start(Some(s), output, false)] + chunks) == Live(PeerStream(output, None), items)
    decreases |chunks|
  {
    var start := Start(Some(s), output, false);
    if chunks == [] {
      StandingsSnoc([], start);
      assert [] + [start] == [start] + chunks;
      items := [];
    } else {
      hide Advance, Standings, Owed;
      var before, last := chunks[..|chunks| - 1], chunks[|chunks| - 1];
      assert [start] + chunks == [start] + before + [last];
      var read := ScalarStanding(s, output, before);
      var item := AdvanceOwed(output, read, last);
      StandingsSnoc([start] + before, last);
      items := read + [item];
    }
  }

  /**
    A scalar output, whatever its chunks hold and whatever comes between them: its
    reader finds exactly one item for each chunk, in order, the value of an intact one
    that decodes, with its metadata, and a failure for any other.
  */
  lemma ScalarOutputReads(frames: seq<PeerFrame>, s: Stream, output: Option<Name>, chunks: seq<PeerFrame>)
    returns (items: seq<ResponseItem>)
    requires Fold(map[], frames).Some? && SoleStream(frames, s, output) && ChunksOf(chunks, s)
    requires OwnFrames(frames, s) == [Start(Some(s), output, false)] + chunks + [StreamEnd(Some(s))]
    ensures AllOwed(chunks, output, items) && Of(Items(map[], frames + [End]), output) == items
  {
    hide AllOwed, Fold, OwnFrames;
    items := ScalarStanding(s, output, chunks);
    StandingsSnoc([Start(Some(s), output, false)] + chunks, StreamEnd(Some(s)));
    assert items + [] == items;
    hide Standings;
    EndedReads(frames, s, output, PeerStream(output, None), items);
    assert items + [] == items;
  }

  // ---- How a response ends -----------------------------------------------------------------------------

  /** The items of a stream's output, once the response has ended: what stands, and an error if it was cut. */
  lemma EndedReads(frames: seq<PeerFrame>, s: Stream, output: Option<Name>, p: PeerStream, out: seq<ResponseItem>)
    requires Fold(map[], frames).Some? && SoleStream(frames, s, output) && p.output == output
    requires Standings(OwnFrames(frames, s)) == Live(p, out)
    ensures Of(Items(map[], frames + [End]), output) == out + MidItem(p)
  {
    hide Fold, OwnFrames, Standings, CutItems, MidItem;
    FoldStands(frames, s, output);
    var (streams, all) := Fold(map[], frames).value;
    ItemsFold(map[], frames, [End]);
    var cut := CutItems(streams, streams.Keys);
    assert Items(streams, [End]) == cut + [];
    assert cut + [] == cut;
    OfAppend(all, cut, output);
    CutHere(streams, streams.Keys, s, output);
  }

  /** Of the streams cut by the response's END, an output's reader is told of its own. */
  lemma {:induction false} CutHere(streams: Streams, todo: set<Stream>, s: Stream, output: Option<Name>)
    requires todo <= streams.Keys && s in todo && streams[s].output == output
    requires forall t :: t in streams && t != s ==> streams[t].output != output
    ensures Of(CutItems(streams, todo), output) == MidItem(streams[s])
    decreases |todo|
  {
    var least := LeastExists(todo);
    CutNext(streams, todo, least);
    var rest := CutItems(streams, todo - {least});
    OfAppend(MidItem(streams[least]), rest, output);
    OfAll(MidItem(streams[least]), output);
    if least == s {
      CutElsewhere(streams, todo - {s}, output);
      assert MidItem(streams[s]) + [] == MidItem(streams[s]);
    } else {
      CutHere(streams, todo - {least}, s, output);
      assert [] + MidItem(streams[s]) == MidItem(streams[s]);
    }
  }

  /**
    A list cut after k chunks, by its STREAM_END or by the response's END alike: the
    output's reader finds the whole items, and an error behind them unless the cut fell
    between two.
  */
  lemma CutIsTold(frames: seq<PeerFrame>, s: Stream, output: Option<Name>, items: seq<ListItem>, k: nat,
                  maxChunk: nat, ended: bool)
    returns (n: nat)
    requires maxChunk > 0 && ItemsOk(items) && k <= |ListBodies(items, maxChunk)|
    requires Fold(map[], frames).Some? && SoleStream(frames, s, output)
    requires OwnFrames(frames, s)
          == [Start(Some(s), output, true)] + Chunks(s, ListBodies(items, maxChunk)[..k])
             + if ended then [StreamEnd(Some(s))] else []
    ensures n <= |items| && |ListBodies(items[..n], maxChunk)| <= k
    ensures n < |items| ==> k < |ListBodies(items[..n + 1], maxChunk)|
    ensures Of(Items(map[], frames + [End]), output)
         == OfDeliveries(output, Deliveries(items[..n]))
            + if |ListBodies(items[..n], maxChunk)| == k then [] else [Tagged(output, Failed(Decoding), None)]
  {
    hide Feed, FeedAll, ListBodies, Fold, OwnFrames, Standings, Chunks, Of, Items, SoleStream;
    var bodies := ListBodies(items, maxChunk)[..k];
    n := CutDelivers(Fresh, items, k, maxChunk);
    assert [] + Deliveries(items[..n]) == Deliveries(items[..n]);
    ChunksStand(s, output, bodies);
    var own := [Start(Some(s), output, true)] + Chunks(s, bodies);
    var held := FeedAll(Fresh, bodies).state;
    var out := OfDeliveries(output, Deliveries(items[..n]));
    if ended {
      StandingsSnoc(own, StreamEnd(Some(s)));
      var told := out + MidItem(PeerStream(output, Some(held)));
      EndedReads(frames, s, output, PeerStream(output, None), told);
      assert told + [] == told;
    } else {
      assert own + [] == own;
      EndedReads(frames, s, output, PeerStream(output, Some(held)), out);
    }
  }

  /** Those cut by the response's END are told of in the order of their ids. */
  lemma {:induction false} CutsInOrder(streams: Streams, ids: seq<Stream>)
    requires Ascending(ids) && forall s :: s in ids ==> s in streams
    ensures CutItems(streams, IdsOf(ids)) == CutsOf(streams, ids)
    decreases |ids|
  {
    hide CutItems, MidItem;
    var todo := IdsOf(ids);
    if ids == [] {
      assert todo == {};
      CutNone(streams);
    } else {
      FirstIsLeast(ids);
      CutNext(streams, todo, ids[0]);
      CutsInOrder(streams, ids[1..]);
    }
  }

  function IdsOf(ids: seq<Stream>): set<Stream> {
    set s | s in ids
  }

  predicate Ascending(ids: seq<Stream>) {
    forall i, j :: 0 <= i < j < |ids| ==> ids[i] < ids[j]
  }

  lemma FirstIsLeast(ids: seq<Stream>)
    requires Ascending(ids) && ids != []
    ensures IsLeast(ids[0], IdsOf(ids)) && Ascending(ids[1..])
    ensures IdsOf(ids) - {ids[0]} == IdsOf(ids[1..])
  {
    assert ids == [ids[0]] + ids[1..];
    assert ids[0] !in ids[1..];
  }

  function CutsOf(streams: Streams, ids: seq<Stream>): seq<ResponseItem>
    requires forall s :: s in ids ==> s in streams
  {
    if ids == [] then [] else MidItem(streams[ids[0]]) + CutsOf(streams, ids[1..])
  }

  // ---- One frame at its place ----------------------------------------------------------------------------

  /** Frames that break the protocol: of a stream without an id, started twice or not started, or of no response. */
  predicate Breaks(streams: Streams, f: PeerFrame) {
    f.Unexpected? || (f.Start? && (f.stream.None? || f.stream.value in streams))
    || (f.ChunkIn? && (f.stream.None? || f.stream.value !in streams))
  }

  /**
    What one frame adds where it comes, and that it changes nothing else: a damaged
    chunk is one failure on its output, a LOG is one log item, each in its place; an
    ERR, or a frame that breaks the protocol, is one failure and the last item.
  */
  lemma FrameInPlace(frames: seq<PeerFrame>, f: PeerFrame, rest: seq<PeerFrame>)
    requires Fold(map[], frames).Some?
    ensures var (streams, before) := Fold(map[], frames).value;
            var (with, without) := (Items(map[], frames + ([f] + rest)), Items(map[], frames + rest));
            without == before + Items(streams, rest)
            && (f.ChunkIn? && !Breaks(streams, f) && !Intact(f) ==>
                  with == before + [Tagged(streams[f.stream.value].output, Failed(Protocol), None)]
                          + Items(streams, rest))
            && (f.LogIn? ==> with == before + [Log] + Items(streams, rest))
            && (f.ErrIn? ==> with == before + [Data(Failed(Remote), None)])
            && (Breaks(streams, f) ==> with == before + [Data(Failed(Protocol), None)])
  {
    var (streams, before) := Fold(map[], frames).value;
    ItemsFold(map[], frames, rest);
    ItemsFold(map[], frames, [f] + rest);
    hide Fold;
    assert ([f] + rest)[1..] == rest;
    var h := Handle(streams, f);
    assert Items(streams, [f] + rest) == h.items + if h.ends then [] else Items(h.streams, rest);
    Regroup(before, h.items, Items(h.streams, rest));
    assert h.items + [] == h.items;
    if f.ChunkIn? && !Breaks(streams, f) && !Intact(f) {
      assert streams[f.stream.value := streams[f.stream.value]] == streams;
    }
  }
}
