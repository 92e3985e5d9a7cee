/**
  The receiving end of a request: one live queue per stream, and the package of
  streams, out of the frames of the request.

  Whether a chunk is within its window is part of the frame here; `CreditProtocol`
  is about when it is.
*/
module Demux {
  import opened CborCodec
  import opened ItemReassembly
  import opened Wrappers
  import O = OutputStream

  type Stream = nat

  datatype RequestFrame =
    | Start(stream: Stream, isSequence: bool)
    | ChunkIn(stream: Stream, payload: seq<byte>, meta: Option<O.Meta>, within: bool, checksum: Checksum)
    | StreamEnd(stream: Stream)
    | BadStart
    | End
    | ErrIn
    | Ignored

  datatype Entry = Value(v: Cbor, meta: Option<O.Meta>) | Fail(why: StreamError)
  datatype Queue = Queue(items: seq<Entry>, finished: bool)
  datatype Arrival = NewStream(queue: nat) | PackageFail(why: StreamError)

  // `queues` are all that were ever made: a reader keeps its queue when the demux lets go of it.
  datatype Demux = Demux(queues: seq<Queue>, channels: map<Stream, nat>, seqs: map<Stream, Reassembly>,
                         package: seq<Arrival>, closed: bool)

  const Idle := Demux([], map[], map[], [], false)

  // ---- Handling a frame --------------------------------------------------------------------------

  function AsEntry(d: Delivery): Entry {
    match d
    case Item(v, meta) => Value(v, meta)
    case DecodeFailed => Fail(Decoding)
  }

  function AsEntries(ds: seq<Delivery>): (es: seq<Entry>)
    ensures |es| == |ds|
  {
    seq(|ds|, i requires 0 <= i < |ds| => AsEntry(ds[i]))
  }

  /** What a chunk of a scalar stream is: one value, whole. */
  function ScalarEntry(payload: seq<byte>, meta: Option<O.Meta>): Entry {
    match Decode(payload)
    case Done(v, _) => Value(v, meta)
    case _ => Fail(Decoding)
  }

  /** What a chunk puts in its queue, and what its reassembly becomes. */
  function ChunkEntries(f: RequestFrame, held: Option<Reassembly>): (seq<Entry>, Option<Reassembly>)
    requires f.ChunkIn?
  {
    if !f.within || f.checksum != Good then ([Fail(Protocol)], held)
    else
      match held
      case Some(r) =>
        var fed := Feed(r, f.payload, f.meta);
        (AsEntries(fed.out), Some(fed.state))
      case None => ([ScalarEntry(f.payload, f.meta)], None)
  }

  function Held(d: Demux, s: Stream): Option<Reassembly> {
    if s in d.seqs then Some(d.seqs[s]) else None
  }

  ghost predicate Wf(d: Demux) {
    (forall s :: s in d.channels ==> d.channels[s] < |d.queues| && !d.queues[d.channels[s]].finished)
    && (forall s, t :: s in d.channels && t in d.channels && s != t ==> d.channels[s] != d.channels[t])
  }

  function Push(q: Queue, more: seq<Entry>): Queue {
    q.(items := q.items + more)
  }

  /** Pushes the same to every queue still open. */
  function PushAll(d: Demux, more: seq<Entry>): Demux {
    d.(queues := seq(|d.queues|, i requires 0 <= i < |d.queues| =>
         if i in d.channels.Values then Push(d.queues[i], more) else d.queues[i]))
  }

  function FinishAll(d: Demux): Demux {
    d.(queues := seq(|d.queues|, i requires 0 <= i < |d.queues| =>
         if i in d.channels.Values then d.queues[i].(finished := true) else d.queues[i]),
       channels := map[], closed := true)
  }

  function StreamClosed(d: Demux, s: Stream): Demux
    requires Wf(d)
  {
    var mid := s in d.seqs && d.seqs[s].buf != [];
    var released := d.(seqs := d.seqs - {s}, channels := d.channels - {s});
    if s in d.channels then
      var q := Push(d.queues[d.channels[s]], if mid then [Fail(Decoding)] else []);
      released.(queues := d.queues[d.channels[s] := q.(finished := true)])
    else released
  }

  predicate Stops(f: RequestFrame) {
    f.BadStart? || f.End? || f.ErrIn?
  }

  function Step(d: Demux, f: RequestFrame): Demux
    requires Wf(d)
  {
    match f
    case Start(s, isSequence) =>
      d.(queues := d.queues + [Queue([], false)], channels := d.channels[s := |d.queues|],
         seqs := if isSequence then d.seqs[s := Empty] else d.seqs,
         package := d.package + [NewStream(|d.queues|)])
    case ChunkIn(s, _, _, _, _) =>
      if s !in d.channels then d
      else
        var (entries, held) := ChunkEntries(f, Held(d, s));
        d.(queues := d.queues[d.channels[s] := Push(d.queues[d.channels[s]], entries)],
           seqs := if held.Some? then d.seqs[s := held.value] else d.seqs)
    case StreamEnd(s) => StreamClosed(d, s)
    case BadStart => d.(package := d.package + [PackageFail(Protocol)])
    case ErrIn => PushAll(d, [Fail(Remote)]).(package := d.package + [PackageFail(Remote)])
    case End => d
    case Ignored => d
  }

  lemma StepWf(d: Demux, f: RequestFrame)
    requires Wf(d) && !Stops(f)
    ensures Wf(Step(d, f))
  {
  }

  lemma StepIgnored(d: Demux)
    requires Wf(d)
    ensures Step(d, Ignored) == d
  {
  }

  /** The frames stopped short: every stream still open, and the package, fails. */
  function CutShort(d: Demux): Demux {
    PushAll(d, [Fail(Abandoned)]).(package := d.package + [PackageFail(Abandoned)])
  }

  function RunFrom(d: Demux, frames: seq<RequestFrame>): Demux
    requires Wf(d)
    decreases |frames|
  {
    if frames == [] then FinishAll(CutShort(d))
    else if Stops(frames[0]) then FinishAll(Step(d, frames[0]))
    else
      StepWf(d, frames[0]);
      RunFrom(Step(d, frames[0]), frames[1..])
  }

  // ---- Up to where it stops ------------------------------------------------------------------------

  predicate NoStops(frames: seq<RequestFrame>) {
    forall i :: 0 <= i < |frames| ==> !Stops(frames[i])
  }

  function Fold(d: Demux, frames: seq<RequestFrame>): (after: Demux)
    requires Wf(d) && NoStops(frames)
    ensures Wf(after)
    decreases |frames|
  {
    if frames == [] then d
    else
      StepWf(d, frames[0]);
      Fold(Step(d, frames[0]), frames[1..])
  }

  lemma {:induction false} RunIsFold(d: Demux, frames: seq<RequestFrame>, rest: seq<RequestFrame>)
    requires Wf(d) && NoStops(frames) && (rest != [] ==> Stops(rest[0]))
    ensures RunFrom(d, frames + rest)
         == FinishAll(if rest == [] then CutShort(Fold(d, frames)) else Step(Fold(d, frames), rest[0]))
    decreases |frames|
  {
    if frames == [] {
      assert frames + rest == rest;
    } else {
      StepWf(d, frames[0]);
      assert (frames + rest)[1..] == frames[1..] + rest;
      RunIsFold(Step(d, frames[0]), frames[1..], rest);
    }
  }

  /** What an open stream's reader still finds at the end, by what stopped the frames. */
  function LastWord(rest: seq<RequestFrame>): seq<Entry> {
    if rest == [] then [Fail(Abandoned)] else if rest[0].ErrIn? then [Fail(Remote)] else []
  }

  function PackageWord(rest: seq<RequestFrame>): seq<Arrival> {
    if rest == [] then [PackageFail(Abandoned)]
    else if rest[0].ErrIn? then [PackageFail(Remote)]
    else if rest[0].BadStart? then [PackageFail(Protocol)] else []
  }

  /**
    How a request ends, exactly.  Frames that stop short leave every open stream
    and the package failed as abandoned, so nothing cut short reads as complete;
    an ERR fails them all; an END, and a malformed STREAM_START, simply end what
    is open, though the latter fails the package.
  */
  lemma EndsAs(frames: seq<RequestFrame>, rest: seq<RequestFrame>)
    requires NoStops(frames) && (rest != [] ==> Stops(rest[0]))
    ensures Wf(Idle)
    ensures var (open, end) := (Fold(Idle, frames), RunFrom(Idle, frames + rest));
            end.closed && end.channels == map[] && |end.queues| == |open.queues|
            && end.package == open.package + PackageWord(rest)
            && (forall s :: s in open.channels ==>
                  end.queues[open.channels[s]] == Queue(open.queues[open.channels[s]].items + LastWord(rest), true))
            && (forall i :: 0 <= i < |open.queues| && i !in open.channels.Values ==> end.queues[i] == open.queues[i])
  {
    RunIsFold(Idle, frames, rest);
    var open := Fold(Idle, frames);
    if rest == [] {
      LastPush(open, [Fail(Abandoned)]);
    } else if rest[0].ErrIn? {
      LastPush(open, [Fail(Remote)]);
    } else {
      LastPush(open, []);
      assert open.package + [] == open.package;
    }
  }

  lemma LastPush(d: Demux, more: seq<Entry>)
    requires Wf(d)
    ensures forall s :: s in d.channels ==>
              FinishAll(PushAll(d, more)).queues[d.channels[s]] == Queue(d.queues[d.channels[s]].items + more, true)
    ensures forall i :: 0 <= i < |d.queues| && i !in d.channels.Values ==>
              FinishAll(PushAll(d, more)).queues[i] == d.queues[i]
    ensures more == [] ==> FinishAll(PushAll(d, more)).queues == FinishAll(d).queues
  {
    forall s | s in d.channels
      ensures d.channels[s] in d.channels.Values
    {
    }
    assert forall q: Queue :: q.items + [] == q.items;
  }

  // ---- Streams left behind -----------------------------------------------------------------------

  /** The j-th frame starts the stream, and nothing ends it before the i-th. */
  predicate Runs(frames: seq<RequestFrame>, j: nat, i: nat, s: Stream)
    requires j < i <= |frames|
  {
    frames[j].Start? && frames[j].stream == s && forall m :: j < m < i ==> frames[m] != StreamEnd(s)
  }

  /** A STREAM_START under the id of a stream that was started and not ended. */
  predicate Restarts(frames: seq<RequestFrame>, j: nat, i: nat)
    requires j < i < |frames|
  {
    frames[i].Start? && Runs(frames, j, i, frames[i].stream)
  }

  predicate Running(frames: seq<RequestFrame>, s: Stream) {
    exists j :: 0 <= j < |frames| && Runs(frames, j, |frames|, s)
  }

  predicate NoOrphans(d: Demux) {
    forall i :: 0 <= i < |d.queues| ==> d.queues[i].finished || i in d.channels.Values
  }

  lemma {:induction false} FoldSnoc(d: Demux, frames: seq<RequestFrame>, f: RequestFrame)
    requires Wf(d) && NoStops(frames) && !Stops(f)
    ensures Fold(d, frames + [f]) == Step(Fold(d, frames), f)
    decreases |frames|
  {
    if frames == [] {
      assert [f][1..] == [];
      StepWf(d, f);
    } else {
      StepWf(d, frames[0]);
      assert (frames + [f])[1..] == frames[1..] + [f];
      FoldSnoc(Step(d, frames[0]), frames[1..], f);
    }
  }

  /** An orphan appears exactly when a stream still open is started again, and then stays. */
  lemma StepOrphans(d: Demux, f: RequestFrame)
    requires Wf(d) && !Stops(f)
    ensures NoOrphans(Step(d, f)) <==> NoOrphans(d) && !(f.Start? && f.stream in d.channels)
  {
    if f.Start? {
      StartOrphans(d, f);
    } else if f.StreamEnd? {
      CloseOrphans(d, f.stream);
    } else {
      var after := Step(d, f);
      assert after.channels == d.channels;
      assert forall i :: 0 <= i < |d.queues| ==> after.queues[i].finished == d.queues[i].finished;
    }
  }

  lemma StartOrphans(d: Demux, f: RequestFrame)
    requires Wf(d) && f.Start?
    ensures NoOrphans(Step(d, f)) <==> NoOrphans(d) && f.stream !in d.channels
  {
    var after := Step(d, f);
    var n := |d.queues|;
    assert after.channels[f.stream] == n;
    forall i | 0 <= i < n
      ensures i in after.channels.Values
              <==> i in d.channels.Values && !(f.stream in d.channels && d.channels[f.stream] == i)
    {
      if i in d.channels.Values {
        var s :| s in d.channels && d.channels[s] == i;
        if s != f.stream {
          assert after.channels[s] == i;
        }
      }
    }
    assert n in after.channels.Values;
    if f.stream in d.channels {
      var i := d.channels[f.stream];
      assert !after.queues[i].finished && i !in after.channels.Values;
    }
  }

  lemma CloseOrphans(d: Demux, s: Stream)
    requires Wf(d)
    ensures NoOrphans(StreamClosed(d, s)) <==> NoOrphans(d)
  {
    var after := StreamClosed(d, s);
    forall i | 0 <= i < |d.queues|
      ensures after.queues[i].finished || i in after.channels.Values
              <==> d.queues[i].finished || i in d.channels.Values
    {
      if i in d.channels.Values {
        var t :| t in d.channels && d.channels[t] == i;
        if t != s {
          assert after.channels[t] == i;
        }
      }
    }
  }

  lemma RunsPrefix(before: seq<RequestFrame>, f: RequestFrame, j: nat, i: nat, s: Stream)
    requires j < i <= |before|
    ensures Runs(before + [f], j, i, s) <==> Runs(before, j, i, s)
  {
    assert forall m :: 0 <= m < |before| ==> (before + [f])[m] == before[m];
  }

  lemma RunningSnoc(before: seq<RequestFrame>, f: RequestFrame, s: Stream)
    ensures Running(before + [f], s) <==> (f.Start? && f.stream == s) || (Running(before, s) && f != StreamEnd(s))
  {
    var all, n := before + [f], |before|;
    assert all[n] == f;
    forall j | 0 <= j < n
      ensures Runs(all, j, n + 1, s) <==> Runs(before, j, n, s) && f != StreamEnd(s)
    {
      RunsPrefix(before, f, j, n, s);
    }
    assert Runs(all, n, n + 1, s) <==> f.Start? && f.stream == s;
    hide Runs;
    if j :| 0 <= j < n && Runs(before, j, n, s) && f != StreamEnd(s) {
      assert Runs(all, j, n + 1, s);
    }
    if j :| 0 <= j < |all| && Runs(all, j, |all|, s) {
      assert j < n ==> Runs(before, j, n, s);
    }
  }

  /** The streams open are those started and not ended. */
  lemma {:induction false} OpenIffRunning(frames: seq<RequestFrame>, s: Stream)
    requires NoStops(frames)
    ensures s in Fold(Idle, frames).channels <==> Running(frames, s)
  {
    if frames != [] {
      var before, f := frames[..|frames| - 1], frames[|frames| - 1];
      assert frames == before + [f];
      OpenIffRunning(before, s);
      hide Running, Fold, Step;
      FoldSnoc(Idle, before, f);
      RunningSnoc(before, f, s);
      StepOpens(Fold(Idle, before), f, s);
    }
  }

  lemma StepOpens(d: Demux, f: RequestFrame, s: Stream)
    requires Wf(d) && !Stops(f)
    ensures s in Step(d, f).channels <==> (f.Start? && f.stream == s) || (s in d.channels && f != StreamEnd(s))
  {
    hide ChunkEntries;
  }

  lemma {:induction false} FoldOrphans(frames: seq<RequestFrame>)
    requires NoStops(frames)
    ensures NoOrphans(Fold(Idle, frames)) <==> forall j, i :: 0 <= j < i < |frames| ==> !Restarts(frames, j, i)
  {
    if frames != [] {
      var before, f := frames[..|frames| - 1], frames[|frames| - 1];
      assert frames == before + [f];
      FoldOrphans(before);
      NoneRestartSnoc(before, f);
      hide Restarts, NoOrphans;
      FoldSnoc(Idle, before, f);
      StepOrphans(Fold(Idle, before), f);
      if f.Start? {
        OpenIffRunning(before, f.stream);
      }
    }
  }

  lemma NoneRestartSnoc(before: seq<RequestFrame>, f: RequestFrame)
    ensures (forall j, i :: 0 <= j < i < |before + [f]| ==> !Restarts(before + [f], j, i))
            <==> (forall j, i :: 0 <= j < i < |before| ==> !Restarts(before, j, i))
                 && !(f.Start? && Running(before, f.stream))
  {
    var all, n := before + [f], |before|;
    assert all[n] == f && forall i :: 0 <= i < n ==> all[i] == before[i];
    forall j, i | 0 <= j < i < n
      ensures Restarts(before, j, i) <==> Restarts(all, j, i)
    {
      if before[i].Start? {
        RunsPrefix(before, f, j, i, before[i].stream);
      }
    }
    forall j | 0 <= j < n
      ensures Restarts(all, j, n) <==> f.Start? && Runs(before, j, n, f.stream)
    {
      if f.Start? {
        RunsPrefix(before, f, j, n, f.stream);
      }
    }
  }

  /**
    Every reader comes to an end, whatever stops the request, exactly when no
    STREAM_START comes under the id of a stream started before and not yet ended: the
    queue such a START replaces is never finished, and its reader waits for ever.
  */
  lemma EveryReaderEndsIff(frames: seq<RequestFrame>, rest: seq<RequestFrame>)
    requires NoStops(frames) && (rest != [] ==> Stops(rest[0]))
    ensures var end := RunFrom(Idle, frames + rest);
            (forall i :: 0 <= i < |end.queues| ==> end.queues[i].finished)
            <==> (forall j, i :: 0 <= j < i < |frames| ==> !Restarts(frames, j, i))
  {
    FoldOrphans(frames);
    EndsAs(frames, rest);
    var (open, end) := (Fold(Idle, frames), RunFrom(Idle, frames + rest));
    forall i | 0 <= i < |open.queues|
      ensures end.queues[i].finished <==> open.queues[i].finished || i in open.channels.Values
    {
      if i in open.channels.Values {
        var s :| s in open.channels && open.channels[s] == i;
      }
    }
  }

  // ---- One stream's own frames ---------------------------------------------------------------------

  predicate About(f: RequestFrame, s: Stream) {
    (f.Start? || f.ChunkIn? || f.StreamEnd?) && f.stream == s
  }

  function OfStream(frames: seq<RequestFrame>, s: Stream): (own: seq<RequestFrame>)
    ensures forall i :: 0 <= i < |own| ==> About(own[i], s)
  {
    if frames == [] then []
    else
      var last := frames[|frames| - 1];
      OfStream(frames[..|frames| - 1], s) + if About(last, s) then [last] else []
  }

  // Where one stream stands, by its own frames alone.
  datatype Standing = Unseen | Open(items: seq<Entry>, held: Option<Reassembly>) | Closed(items: seq<Entry>) | Reused

  function Advance(st: Standing, f: RequestFrame): Standing {
    match st
    case Unseen => if f.Start? then Open([], if f.isSequence then Some(Empty) else None) else Unseen
    case Open(items, held) =>
      if f.ChunkIn? then
        var (entries, after) := ChunkEntries(f, held);
        Open(items + entries, after)
      else if f.StreamEnd? then
        Closed(items + if held.Some? && held.value.buf != [] then [Fail(Decoding)] else [])
      else Reused
    case Closed(items) => if f.Start? then Reused else st
    case Reused => Reused
  }

  function Standings(own: seq<RequestFrame>): Standing {
    if own == [] then Unseen else Advance(Standings(own[..|own| - 1]), own[|own| - 1])
  }

  ghost predicate Stands(d: Demux, s: Stream, st: Standing) {
    match st
    case Unseen => s !in d.channels && s !in d.seqs
    case Open(items, held) =>
      s in d.channels && d.channels[s] < |d.queues| && d.queues[d.channels[s]] == Queue(items, false)
      && Held(d, s) == held
    case Closed(items) =>
      s !in d.channels && s !in d.seqs && exists i :: 0 <= i < |d.queues| && d.queues[i] == Queue(items, true)
    case Reused => true
  }

  /** A finished queue is never touched again. */
  lemma FinishedStays(d: Demux, f: RequestFrame, i: nat)
    requires Wf(d) && !Stops(f) && i < |d.queues| && d.queues[i].finished
    ensures i < |Step(d, f).queues| && Step(d, f).queues[i] == d.queues[i]
  {
  }

  lemma OtherStands(d: Demux, f: RequestFrame, s: Stream, st: Standing)
    requires Wf(d) && !Stops(f) && !About(f, s) && Stands(d, s, st)
    ensures Stands(Step(d, f), s, st)
  {
    if st.Closed? {
      var i :| 0 <= i < |d.queues| && d.queues[i] == Queue(st.items, true);
      FinishedStays(d, f, i);
    }
  }

  lemma OwnStands(d: Demux, f: RequestFrame, s: Stream, st: Standing)
    requires Wf(d) && About(f, s) && Stands(d, s, st)
    ensures Stands(Step(d, f), s, Advance(st, f))
  {
    var after := Step(d, f);
    match st
    case Unseen =>
    case Open(items, held) =>
      var i := d.channels[s];
      if f.StreamEnd? {
        assert after.queues[i].finished;
        assert Held(d, s) == held;
      }
    case Closed(items) =>
      var i :| 0 <= i < |d.queues| && d.queues[i] == Queue(items, true);
      FinishedStays(d, f, i);
    case Reused =>
  }

  lemma {:induction false} FoldStands(frames: seq<RequestFrame>, s: Stream)
    requires NoStops(frames)
    ensures Stands(Fold(Idle, frames), s, Standings(OfStream(frames, s)))
  {
    if frames != [] {
      var before, f := frames[..|frames| - 1], frames[|frames| - 1];
      FoldStands(before, s);
      assert frames == before + [f];
      FoldSnoc(Idle, before, f);
      var own := OfStream(before, s);
      hide Step, Stands, Advance, Fold;
      if About(f, s) {
        OwnStands(Fold(Idle, before), f, s, Standings(own));
        assert (own + [f])[..|own|] == own;
      } else {
        OtherStands(Fold(Idle, before), f, s, Standings(own));
        assert own + [] == own;
      }
    }
  }

  // ---- A sequence stream, sent and received ----------------------------------------------------------

  function Chunks(s: Stream, bodies: seq<O.Body>): seq<RequestFrame>
    requires Fragments(bodies)
  {
    seq(|bodies|, i requires 0 <= i < |bodies| => ChunkIn(s, bodies[i].bytes, bodies[i].meta, true, Good))
  }

  lemma AdvanceChunk(s: Stream, fed: Fed, last: O.Body)
    requires last.Fragment?
    ensures var after := FeedInto(fed, last);
            Advance(Open(AsEntries(fed.out), Some(fed.state)), ChunkIn(s, last.bytes, last.meta, true, Good))
            == Open(AsEntries(after.out), Some(after.state))
  {
    hide Feed;
  }

  lemma ChunksSnoc(s: Stream, before: seq<O.Body>, last: O.Body)
    requires Fragments(before) && last.Fragment?
    ensures Fragments(before + [last])
    ensures [Start(s, true)] + Chunks(s, before + [last])
         == [Start(s, true)] + Chunks(s, before) + [ChunkIn(s, last.bytes, last.meta, true, Good)]
  {
  }

  lemma StandingsSnoc(own: seq<RequestFrame>, f: RequestFrame)
    ensures Standings(own + [f]) == Advance(Standings(own), f)
  {
    assert (own + [f])[..|own|] == own;
  }

  lemma {:induction false} ChunksStand(s: Stream, bodies: seq<O.Body>)
    requires Fragments(bodies)
    ensures var fed := FeedAll(Fresh, bodies);
            Standings([Start(s, true)] + Chunks(s, bodies)) == Open(AsEntries(fed.out), Some(fed.state))
    decreases |bodies|
  {
    if bodies == [] {
      StandingsSnoc([], Start(s, true));
      assert [] + [Start(s, true)] == [Start(s, true)] + Chunks(s, bodies);
      assert AsEntries([]) == [];
    } else {
      hide Advance, Standings, FeedAll, FeedInto;
      var before, last := bodies[..|bodies| - 1], bodies[|bodies| - 1];
      assert bodies == before + [last];
      ChunksStand(s, before);
      FeedAllSnoc(Fresh, before, last);
      ChunksSnoc(s, before, last);
      StandingsSnoc([Start(s, true)] + Chunks(s, before), ChunkIn(s, last.bytes, last.meta, true, Good));
      AdvanceChunk(s, FeedAll(Fresh, before), last);
    }
  }

  /** Some reader's queue is exactly this. */
  ghost predicate Reads(d: Demux, q: Queue) {
    exists i :: 0 <= i < |d.queues| && d.queues[i] == q
  }

  /**
    From sender to reader: a list of items emitted on a sequence stream, however its
    chunks are interleaved with the frames of other streams, is in the end exactly
    what its reader finds, each item with its metadata, and then the end.
  */
  lemma SequenceArrives(frames: seq<RequestFrame>, s: Stream, items: seq<ListItem>, maxChunk: nat)
    requires maxChunk > 0 && ItemsOk(items) && NoStops(frames)
    requires OfStream(frames, s) == [Start(s, true)] + Chunks(s, ListBodies(items, maxChunk)) + [StreamEnd(s)]
    ensures Reads(Fold(Idle, frames), Queue(AsEntries(Deliveries(items)), true))
  {
    var bodies := ListBodies(items, maxChunk);
    FoldStands(frames, s);
    ChunksStand(s, bodies);
    ItemsRoundTrip(items, maxChunk);
    var own := OfStream(frames, s);
    assert own[..|own| - 1] == [Start(s, true)] + Chunks(s, bodies);
    assert Standings(own) == Closed(AsEntries(Deliveries(items)) + []);
    assert AsEntries(Deliveries(items)) + [] == AsEntries(Deliveries(items));
  }

  /** The first n items are those whose chunks are all among the first k. */
  ghost predicate WholeItems(items: seq<ListItem>, n: nat, k: nat, maxChunk: nat)
    requires maxChunk > 0 && ItemsOk(items)
  {
    n <= |items| && |ListBodies(items[..n], maxChunk)| <= k
    && (n < |items| ==> k < |ListBodies(items[..n + 1], maxChunk)|)
  }

  /** A stream cut after k chunks: n whole items in its queue, and a part held unless the cut fell between two. */
  lemma {:induction false} CutStands(frames: seq<RequestFrame>, s: Stream, items: seq<ListItem>, k: nat, maxChunk: nat)
    returns (n: nat, held: Reassembly)
    requires maxChunk > 0 && ItemsOk(items) && NoStops(frames) && k <= |ListBodies(items, maxChunk)|
    requires OfStream(frames, s) == [Start(s, true)] + Chunks(s, ListBodies(items, maxChunk)[..k])
    ensures WholeItems(items, n, k, maxChunk)
    ensures Standings(OfStream(frames, s)) == Open(AsEntries(Deliveries(items[..n])), Some(held))
    ensures held.buf == [] <==> |ListBodies(items[..n], maxChunk)| == k
  {
    hide Feed, FeedAll, ListBodies, Standings, OfStream, Chunks;
    var bodies := ListBodies(items, maxChunk)[..k];
    n := CutDelivers(Fresh, items, k, maxChunk);
    held := FeedAll(Fresh, bodies).state;
    assert [] + Deliveries(items[..n]) == Deliveries(items[..n]);
    ChunksStand(s, bodies);
  }

  /** Ended by its STREAM_END inside an item, a sequence stream says so. */
  lemma StreamEndTellsCut(frames: seq<RequestFrame>, s: Stream, items: seq<ListItem>, k: nat, maxChunk: nat)
    returns (n: nat)
    requires maxChunk > 0 && ItemsOk(items) && NoStops(frames) && k <= |ListBodies(items, maxChunk)|
    requires OfStream(frames, s) == [Start(s, true)] + Chunks(s, ListBodies(items, maxChunk)[..k])
    ensures WholeItems(items, n, k, maxChunk) && NoStops(frames + [StreamEnd(s)])
    ensures var told := if |ListBodies(items[..n], maxChunk)| == k then [] else [Fail(Decoding)];
            Reads(Fold(Idle, frames + [StreamEnd(s)]), Queue(AsEntries(Deliveries(items[..n])) + told, true))
  {
    hide ListBodies, OfStream, Chunks, Standings, Fold, Reads;
    var held;
    n, held := CutStands(frames, s, items, k, maxChunk);
    EndStands(frames, s, AsEntries(Deliveries(items[..n])), held);
  }

  lemma EndStands(frames: seq<RequestFrame>, s: Stream, entries: seq<Entry>, held: Reassembly)
    requires NoStops(frames) && Standings(OfStream(frames, s)) == Open(entries, Some(held))
    ensures NoStops(frames + [StreamEnd(s)])
    ensures var told := if held.buf == [] then [] else [Fail(Decoding)];
            Reads(Fold(Idle, frames + [StreamEnd(s)]), Queue(entries + told, true))
  {
    var all, own := frames + [StreamEnd(s)], OfStream(frames, s);
    assert all[..|frames|] == frames;
    assert OfStream(all, s) == own + [StreamEnd(s)];
    FoldStands(all, s);
    StandingsSnoc(own, StreamEnd(s));
    hide OfStream, Standings, Fold;
  }

  /**
    Ended by the request's END instead, it does not: the part held is dropped, and
    the reader finds the whole items before it and a clean end.
  */
  lemma EndDropsCut(frames: seq<RequestFrame>, s: Stream, items: seq<ListItem>, k: nat, maxChunk: nat)
    returns (n: nat)
    requires maxChunk > 0 && ItemsOk(items) && NoStops(frames) && k <= |ListBodies(items, maxChunk)|
    requires OfStream(frames, s) == [Start(s, true)] + Chunks(s, ListBodies(items, maxChunk)[..k])
    ensures WholeItems(items, n, k, maxChunk)
    ensures Reads(RunFrom(Idle, frames + [End]), Queue(AsEntries(Deliveries(items[..n])), true))
  {
    var held;
    n, held := CutStands(frames, s, items, k, maxChunk);
    hide ListBodies;
    FoldStands(frames, s);
    EndsAs(frames, [End]);
    var entries := AsEntries(Deliveries(items[..n]));
    assert entries + [] == entries;
    var open := Fold(Idle, frames);
    assert open.queues[open.channels[s]] == Queue(entries, false);
  }

  // ---- The object ------------------------------------------------------------------------------------

  /** Does the same to every queue still open. */
  method EachOpen(queues: seq<Queue>, open: set<nat>, change: Queue -> Queue) returns (after: seq<Queue>)
    ensures |after| == |queues|
    ensures forall i :: 0 <= i < |queues| ==> after[i] == if i in open then change(queues[i]) else queues[i]
  {
    after := [];
    for i := 0 to |queues|
      invariant |after| == i
      invariant forall j :: 0 <= j < i ==> after[j] == if j in open then change(queues[j]) else queues[j]
    {
      after := after + [if i in open then change(queues[i]) else queues[i]];
    }
  }

  class RequestDemux {
    var queues: seq<Queue>
    var streamChannels: map<Stream, nat>
    var seqReassembly: map<Stream, Reassembly>
    var streamsQueue: seq<Arrival>
    var finished: bool

    ghost function State(): Demux
      reads this
    {
      Demux(queues, streamChannels, seqReassembly, streamsQueue, finished)
    }

    constructor ()
      ensures State() == Idle
    {
      queues, streamChannels, seqReassembly, streamsQueue, finished := [], map[], map[], [], false;
    }

    method OnStart(f: RequestFrame)
      requires Wf(State()) && f.Start?
      modifies this
      ensures State() == Step(old(State()), f)
    {
      streamChannels := streamChannels[f.stream := |queues|];
      if f.isSequence {
        seqReassembly := seqReassembly[f.stream := Empty];
      }
      streamsQueue := streamsQueue + [NewStream(|queues|)];
      queues := queues + [Queue([], false)];
    }

    method OnChunk(f: RequestFrame)
      requires Wf(State()) && f.ChunkIn?
      modifies this
      ensures State() == Step(old(State()), f)
    {
      if f.stream !in streamChannels {
        return;
      }
      var i := streamChannels[f.stream];
      if !f.within || f.checksum != Good {
        queues := queues[i := Push(queues[i], [Fail(Protocol)])];
        assert f.stream in seqReassembly ==> seqReassembly[f.stream := seqReassembly[f.stream]] == seqReassembly;
        return;
      }
      if f.stream in seqReassembly {
        var fed := Feed(seqReassembly[f.stream], f.payload, f.meta);
        seqReassembly := seqReassembly[f.stream := fed.state];
        queues := queues[i := Push(queues[i], AsEntries(fed.out))];
      } else {
        queues := queues[i := Push(queues[i], [ScalarEntry(f.payload, f.meta)])];
      }
    }

    method OnStreamEnd(s: Stream)
      requires Wf(State())
      modifies this
      ensures State() == Step(old(State()), StreamEnd(s))
    {
      var mid := s in seqReassembly && seqReassembly[s].buf != [];
      seqReassembly := seqReassembly - {s};
      if s in streamChannels {
        var i := streamChannels[s];
        var q := Push(queues[i], if mid then [Fail(Decoding)] else []);
        queues := queues[i := q.(finished := true)];
        streamChannels := streamChannels - {s};
      } else {
        assert streamChannels - {s} == streamChannels;
      }
    }

    /** The same entries to every queue still open. */
    method PushToOpen(more: seq<Entry>)
      requires Wf(State())
      modifies this`queues
      ensures State() == PushAll(old(State()), more) && Wf(State())
    {
      queues := EachOpen(queues, streamChannels.Values, (q: Queue) => Push(q, more));
    }

    method FinishOpen()
      requires Wf(State())
      modifies this
      ensures State() == FinishAll(old(State()))
    {
      queues := EachOpen(queues, streamChannels.Values, (q: Queue) => q.(finished := true));
      streamChannels := map[];
      finished := true;
    }

    method OnStop(f: RequestFrame)
      requires Wf(State()) && Stops(f)
      modifies this
      ensures State() == Step(old(State()), f) && Wf(State())
    {
      if f.BadStart? {
        streamsQueue := streamsQueue + [PackageFail(Protocol)];
      } else if f.ErrIn? {
        PushToOpen([Fail(Remote)]);
        streamsQueue := streamsQueue + [PackageFail(Remote)];
      }
    }

    /** The whole loop: frame by frame until something stops it, or the frames do. */
    method DemuxAll(frames: seq<RequestFrame>)
      requires State() == Idle
      modifies this
      ensures State() == RunFrom(Idle, frames)
    {
      hide Step;
      var cutShort := true;
      var i := 0;
      assert frames[0..] == frames;
      while i < |frames|
        invariant 0 <= i <= |frames| && Wf(State()) && cutShort
        invariant RunFrom(State(), frames[i..]) == RunFrom(Idle, frames)
      {
        var f := frames[i];
        assert frames[i..][1..] == frames[i + 1..];
        ghost var before := State();
        hide Wf;
        if Stops(f) {
          cutShort := false;
          OnStop(f);
          break;
        }
        StepWf(before, f);
        match f {
          case Start(_, _) => OnStart(f);
          case ChunkIn(_, _, _, _, _) => OnChunk(f);
          case StreamEnd(s) => OnStreamEnd(s);
          case Ignored => StepIgnored(before);
        }
        i := i + 1;
      }
      if cutShort {
        PushToOpen([Fail(Abandoned)]);
        streamsQueue := streamsQueue + [PackageFail(Abandoned)];
      }
      FinishOpen();
    }
  }
}
