/**
  What the readers of a request's streams find when chunks are damaged, late or
  malformed.
*/
module DemuxReads {
  import opened CborCodec
  import opened Demux
  import opened ItemReassembly
  import opened Wrappers
  import O = OutputStream

  // ---- Scalar streams, whatever their chunks hold ------------------------------------------------------

  predicate Intact(f: RequestFrame) {
    f.ChunkIn? && f.within && f.checksum == Good
  }

  /** What a reader of a scalar stream is owed for one chunk: its value, or one failure that says why not. */
  predicate Owed(f: RequestFrame, e: Entry) {
    if !Intact(f) then e == Fail(Protocol)
    else
      match e
      case Value(v, meta) => Decode(f.payload).Done? && Decode(f.payload).v == v && meta == f.meta
      case Fail(why) => !Decode(f.payload).Done? && why == Decoding
  }

  predicate ChunksOf(chunks: seq<RequestFrame>, s: Stream) {
    forall i :: 0 <= i < |chunks| ==> chunks[i].ChunkIn? && chunks[i].stream == s
  }

  predicate AllOwed(chunks: seq<RequestFrame>, entries: seq<Entry>) {
    |entries| == |chunks| && forall i :: 0 <= i < |chunks| ==> Owed(chunks[i], entries[i])
  }

  lemma AdvanceOwed(items: seq<Entry>, f: RequestFrame) returns (e: Entry)
    requires f.ChunkIn?
    ensures Owed(f, e) && Advance(Open(items, None), f) == Open(items + [e], None)
  {
    e := if Intact(f) then ScalarEntry(f.payload, f.meta) else Fail(Protocol);
  }

  lemma {:induction false} ScalarStanding(s: Stream, chunks: seq<RequestFrame>) returns (entries: seq<Entry>)
    requires ChunksOf(chunks, s)
    ensures AllOwed(chunks, entries)
    ensures Standings([Start(s, false)] + chunks) == Open(entries, None)
    decreases |chunks|
  {
    if chunks == [] {
      StandingsSnoc([], Start(s, false));
      assert [] + [Start(s, false)] == [Start(s, false)] + chunks;
      entries := [];
    } else {
      hide Advance, Standings, Owed;
      var before, last := chunks[..|chunks| - 1], chunks[|chunks| - 1];
      assert [Start(s, false)] + chunks == [Start(s, false)] + before + [last];
      var read := ScalarStanding(s, before);
      var e := AdvanceOwed(read, last);
      StandingsSnoc([Start(s, false)] + before, last);
      entries := read + [e];
    }
  }

  /**
    A scalar stream, whatever its chunks hold and however its frames are interleaved
    with others: its reader finds exactly one entry for each chunk, in order, the value
    of an intact one that decodes and a failure for any other, and then the end.
  */
  lemma ScalarStreamReads(frames: seq<RequestFrame>, s: Stream, chunks: seq<RequestFrame>) returns (entries: seq<Entry>)
    requires NoStops(frames) && ChunksOf(chunks, s)
    requires OfStream(frames, s) == [Start(s, false)] + chunks + [StreamEnd(s)]
    ensures AllOwed(chunks, entries) && Reads(Fold(Idle, frames), Queue(entries, true))
  {
    hide Fold, OfStream, AllOwed;
    FoldStands(frames, s);
    entries := ScalarStanding(s, chunks);
    StandingsSnoc([Start(s, false)] + chunks, StreamEnd(s));
    hide Standings;
    assert entries + [] == entries;
  }

  // ---- One damaged chunk -----------------------------------------------------------------------------

  /** The demux with one protocol failure more in the k-th queue, behind its first n entries. */
  function WithFailure(d: Demux, k: nat, n: nat): Demux
    requires k < |d.queues| && n <= |d.queues[k].items|
  {
    var items := d.queues[k].items;
    d.(queues := d.queues[k := d.queues[k].(items := items[..n] + [Fail(Protocol)] + items[n..])])
  }

  predicate Has(d: Demux, k: nat, before: seq<Entry>) {
    k < |d.queues| && |before| <= |d.queues[k].items| && d.queues[k].items[..|before|] == before
  }

  lemma PushBehind(items: seq<Entry>, n: nat, more: seq<Entry>)
    requires n <= |items|
    ensures (items + more)[..n] == items[..n]
    ensures items[..n] + [Fail(Protocol)] + items[n..] + more
         == (items + more)[..n] + [Fail(Protocol)] + (items + more)[n..]
  {
  }

  lemma FailureWf(d: Demux, k: nat, before: seq<Entry>)
    requires Wf(d) && Has(d, k, before)
    ensures Wf(WithFailure(d, k, |before|))
  {
  }

  lemma FailureStays(d: Demux, f: RequestFrame, k: nat, before: seq<Entry>)
    requires Wf(d) && Has(d, k, before) && Wf(WithFailure(d, k, |before|))
    ensures Has(Step(d, f), k, before)
    ensures Step(WithFailure(d, k, |before|), f) == WithFailure(Step(d, f), k, |before|)
  {
    hide Wf, ChunkEntries;
    var n := |before|;
    match f
    case ChunkIn(s, _, _, _, _) =>
      if s in d.channels {
        assert Held(WithFailure(d, k, n), s) == Held(d, s);
        PushBehind(d.queues[k].items, n, ChunkEntries(f, Held(d, s)).0);
        ChunkFailure(d, f, k, before);
      }
    case StreamEnd(s) => EndFailure(d, s, k, before);
    case ErrIn => AllFailure(d, [Fail(Remote)], k, before);
    case Start(_, _) => StartFailure(d, f, k, before);
    case _ =>
  }

  lemma StartFailure(d: Demux, f: RequestFrame, k: nat, before: seq<Entry>)
    requires f.Start? && Wf(d) && Has(d, k, before) && Wf(WithFailure(d, k, |before|))
    ensures Has(Step(d, f), k, before)
    ensures Step(WithFailure(d, k, |before|), f) == WithFailure(Step(d, f), k, |before|)
  {
    assert Step(WithFailure(d, k, |before|), f).queues == WithFailure(Step(d, f), k, |before|).queues;
  }

  lemma ChunkFailure(d: Demux, f: RequestFrame, k: nat, before: seq<Entry>)
    requires f.ChunkIn? && f.stream in d.channels && Wf(d) && Has(d, k, before) && Wf(WithFailure(d, k, |before|))
    ensures Has(Step(d, f), k, before)
    ensures Step(WithFailure(d, k, |before|), f) == WithFailure(Step(d, f), k, |before|)
  {
    hide ChunkEntries;
    var more := ChunkEntries(f, Held(d, f.stream)).0;
    PushBehind(d.queues[k].items, |before|, more);
    assert Held(WithFailure(d, k, |before|), f.stream) == Held(d, f.stream);
    assert Step(WithFailure(d, k, |before|), f).queues == WithFailure(Step(d, f), k, |before|).queues;
  }

  lemma EndFailure(d: Demux, s: Stream, k: nat, before: seq<Entry>)
    requires Wf(d) && Has(d, k, before) && Wf(WithFailure(d, k, |before|))
    ensures Has(StreamClosed(d, s), k, before)
    ensures StreamClosed(WithFailure(d, k, |before|), s) == WithFailure(StreamClosed(d, s), k, |before|)
  {
    var mid := s in d.seqs && d.seqs[s].buf != [];
    PushBehind(d.queues[k].items, |before|, if mid then [Fail(Decoding)] else []);
    assert StreamClosed(WithFailure(d, k, |before|), s).queues
        == WithFailure(StreamClosed(d, s), k, |before|).queues;
  }

  lemma AllFailure(d: Demux, more: seq<Entry>, k: nat, before: seq<Entry>)
    requires Has(d, k, before)
    ensures Has(PushAll(d, more), k, before)
    ensures PushAll(WithFailure(d, k, |before|), more) == WithFailure(PushAll(d, more), k, |before|)
  {
    PushBehind(d.queues[k].items, |before|, more);
    assert PushAll(WithFailure(d, k, |before|), more).queues == WithFailure(PushAll(d, more), k, |before|).queues;
  }

  lemma FinishFailure(d: Demux, k: nat, before: seq<Entry>)
    requires Has(d, k, before)
    ensures Has(FinishAll(d), k, before)
    ensures FinishAll(WithFailure(d, k, |before|)) == WithFailure(FinishAll(d), k, |before|)
  {
    assert FinishAll(WithFailure(d, k, |before|)).queues == WithFailure(FinishAll(d), k, |before|).queues;
  }

  lemma {:induction false} RunFailure(d: Demux, frames: seq<RequestFrame>, k: nat, before: seq<Entry>)
    requires Wf(d) && Has(d, k, before)
    ensures Wf(WithFailure(d, k, |before|)) && Has(RunFrom(d, frames), k, before)
    ensures RunFrom(WithFailure(d, k, |before|), frames) == WithFailure(RunFrom(d, frames), k, |before|)
    decreases |frames|
  {
    hide Wf, Step, PushAll, FinishAll, Has, WithFailure;
    FailureWf(d, k, before);
    if frames == [] {
      CutFailure(d, k, before);
      FinishFailure(CutShort(d), k, before);
    } else {
      FailureStays(d, frames[0], k, before);
      if Stops(frames[0]) {
        FinishFailure(Step(d, frames[0]), k, before);
      } else {
        StepWf(d, frames[0]);
        RunFailure(Step(d, frames[0]), frames[1..], k, before);
      }
    }
  }

  lemma CutFailure(d: Demux, k: nat, before: seq<Entry>)
    requires Has(d, k, before)
    ensures Has(CutShort(d), k, before)
    ensures CutShort(WithFailure(d, k, |before|)) == WithFailure(CutShort(d), k, |before|)
  {
    AllFailure(d, [Fail(Abandoned)], k, before);
    hide PushAll;
  }

  lemma {:induction false} RunOn(d: Demux, frames: seq<RequestFrame>, rest: seq<RequestFrame>)
    requires Wf(d) && NoStops(frames)
    ensures RunFrom(d, frames + rest) == RunFrom(Fold(d, frames), rest)
    decreases |frames|
  {
    if frames == [] {
      assert frames + rest == rest;
    } else {
      StepWf(d, frames[0]);
      assert (frames + rest)[1..] == frames[1..] + rest;
      RunOn(Step(d, frames[0]), frames[1..], rest);
    }
  }

  /**
    A chunk beyond its window, or whose checksum is wrong or missing, on an open stream,
    anywhere in any request: the stream's reader finds one protocol failure in its
    place, and everything else, of this stream and of all others, is what it would be
    without the chunk.
  */
  lemma DamagedChunkIsReported(frames: seq<RequestFrame>, bad: RequestFrame, rest: seq<RequestFrame>)
    requires NoStops(frames) && bad.ChunkIn? && !Intact(bad) && bad.stream in Fold(Idle, frames).channels
    ensures var before := Fold(Idle, frames);
            var k := before.channels[bad.stream];
            var without := RunFrom(Idle, frames + rest);
            k < |before.queues| && Has(without, k, before.queues[k].items)
            && RunFrom(Idle, frames + ([bad] + rest)) == WithFailure(without, k, |before.queues[k].items|)
  {
    var before := Fold(Idle, frames);
    var k := before.channels[bad.stream];
    var items := before.queues[k].items;
    RunOn(Idle, frames, rest);
    RunOn(Idle, frames, [bad] + rest);
    DamagedStep(before, bad);
    assert ([bad] + rest)[1..] == rest;
    hide Step, WithFailure, Fold;
    RunFailure(before, rest, k, items);
  }

  lemma DamagedStep(d: Demux, bad: RequestFrame)
    requires Wf(d) && bad.ChunkIn? && !Intact(bad) && bad.stream in d.channels
    ensures var k := d.channels[bad.stream];
            Has(d, k, d.queues[k].items) && Step(d, bad) == WithFailure(d, k, |d.queues[k].items|)
  {
    var k := d.channels[bad.stream];
    var items := d.queues[k].items;
    assert items[..|items|] + [Fail(Protocol)] + items[|items|..] == items + [Fail(Protocol)];
    assert bad.stream in d.seqs ==> d.seqs[bad.stream := d.seqs[bad.stream]] == d.seqs;
  }

  /** A chunk of a stream that was not started, or has ended, is passed over, whatever it holds. */
  lemma LateChunkIsIgnored(frames: seq<RequestFrame>, late: RequestFrame, rest: seq<RequestFrame>)
    requires NoStops(frames) && late.ChunkIn? && !Running(frames, late.stream)
    ensures RunFrom(Idle, frames + ([late] + rest)) == RunFrom(Idle, frames + rest)
  {
    OpenIffRunning(frames, late.stream);
    RunOn(Idle, frames, rest);
    RunOn(Idle, frames, [late] + rest);
    assert ([late] + rest)[1..] == rest;
    hide Fold;
  }

  // ---- The package -----------------------------------------------------------------------------------

  function StartsIn(frames: seq<RequestFrame>): nat {
    if frames == [] then 0
    else StartsIn(frames[..|frames| - 1]) + if frames[|frames| - 1].Start? then 1 else 0
  }

  /** Every stream started is handed to the handler, each once and in order, with a queue of its own. */
  lemma {:induction false} StreamsAreAnnounced(frames: seq<RequestFrame>)
    requires NoStops(frames)
    ensures var d := Fold(Idle, frames);
            |d.queues| == StartsIn(frames) && |d.package| == StartsIn(frames)
            && forall i :: 0 <= i < |d.package| ==> d.package[i] == NewStream(i)
  {
    if frames != [] {
      var before, f := frames[..|frames| - 1], frames[|frames| - 1];
      assert frames == before + [f];
      StreamsAreAnnounced(before);
      FoldSnoc(Idle, before, f);
      StepAnnounces(Fold(Idle, before), f);
      hide Fold, Step;
    }
  }

  lemma StepAnnounces(d: Demux, f: RequestFrame)
    requires Wf(d) && !Stops(f)
    ensures Step(d, f).package == d.package + if f.Start? then [NewStream(|d.queues|)] else []
    ensures |Step(d, f).queues| == |d.queues| + if f.Start? then 1 else 0
  {
    hide ChunkEntries;
    assert d.package + [] == d.package;
  }
}
