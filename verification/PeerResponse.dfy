/**
  The caller's end of a peer call: the items of a response, pulled one at a time
  out of its frames.

  `Items` is everything a response yields before it yields nothing; the puller
  below hands it out one by one.
*/
module PeerResponse {
  import opened CborCodec
  import opened ItemReassembly
  import opened Wrappers
  import O = OutputStream

  type Stream = nat
  type Name = string

  datatype PeerFrame =
    | Start(stream: Option<Stream>, output: Option<Name>, isSequence: bool)
    | ChunkIn(stream: Option<Stream>, payload: Option<seq<byte>>, meta: Option<O.Meta>, checksum: Checksum)
    | StreamEnd(stream: Option<Stream>)
    | LogIn
    | End
    | ErrIn
    | Unexpected

  datatype Outcome = Got(v: Cbor) | Failed(why: StreamError)

  // The main output's items are Data; another output's are tagged with its name.
  datatype ResponseItem = Data(o: Outcome, meta: Option<O.Meta>)
                        | Output(name: Name, o: Outcome, meta: Option<O.Meta>)
                        | Log

  datatype PeerStream = PeerStream(output: Option<Name>, held: Option<Reassembly>)
  type Streams = map<Stream, PeerStream>

  // ---- Handling a frame ---------------------------------------------------------------------------

  function Tagged(output: Option<Name>, o: Outcome, meta: Option<O.Meta>): ResponseItem {
    match output
    case None => Data(o, meta)
    case Some(name) => Output(name, o, meta)
  }

  function OfDelivery(output: Option<Name>, d: Delivery): ResponseItem {
    match d
    case Item(v, meta) => Tagged(output, Got(v), meta)
    case DecodeFailed => Tagged(output, Failed(Decoding), None)
  }

  function OfDeliveries(output: Option<Name>, ds: seq<Delivery>): (items: seq<ResponseItem>)
    ensures |items| == |ds|
  {
    seq(|ds|, i requires 0 <= i < |ds| => OfDelivery(output, ds[i]))
  }

  /** What a chunk gives, and what its stream becomes. */
  function ChunkItems(p: PeerStream, f: PeerFrame): (seq<ResponseItem>, PeerStream)
    requires f.ChunkIn?
  {
    if f.payload.None? || f.checksum != Good then ([Tagged(p.output, Failed(Protocol), None)], p)
    else
      match p.held
      case Some(r) =>
        var fed := Feed(r, f.payload.value, f.meta);
        (OfDeliveries(p.output, fed.out), p.(held := Some(fed.state)))
      case None =>
        match Decode(f.payload.value)
        case Done(v, _) => ([Tagged(p.output, Got(v), f.meta)], p)
        case _ => ([Tagged(p.output, Failed(Decoding), None)], p)
  }

  /** The error of an item a stream ended inside, if it did. */
  function MidItem(p: PeerStream): seq<ResponseItem> {
    if p.held.Some? && p.held.value.buf != [] then [Tagged(p.output, Failed(Decoding), None)] else []
  }

  lemma {:induction false} LeastExists(todo: set<Stream>) returns (s: Stream)
    requires todo != {}
    ensures s in todo && forall t :: t in todo ==> s <= t
    decreases |todo|
  {
    s :| s in todo;
    if todo - {s} == {} {
      assert todo == {s};
    } else {
      var first := s;
      var t := LeastExists(todo - {s});
      if t < s {
        s := t;
      }
      assert forall x :: x in todo ==> x == first || x in todo - {first};
    }
  }

  ghost predicate IsLeast(s: Stream, todo: set<Stream>) {
    s in todo && forall t :: t in todo ==> s <= t
  }

  /** The streams ended inside an item by the response's END, in the order of their ids. */
  ghost function CutItems(streams: Streams, todo: set<Stream>): seq<ResponseItem>
    requires todo <= streams.Keys
    decreases |todo|
  {
    if todo == {} then []
    else
      assert exists s :: IsLeast(s, todo) by {
        var s := LeastExists(todo);
        assert IsLeast(s, todo);
      }
      var s :| IsLeast(s, todo);
      MidItem(streams[s]) + CutItems(streams, todo - {s})
  }

  datatype Handled = Handled(streams: Streams, items: seq<ResponseItem>, ends: bool)

  const BROKEN: seq<ResponseItem> := [Data(Failed(Protocol), None)]

  ghost function Handle(streams: Streams, f: PeerFrame): Handled {
    match f
    case Start(stream, output, isSequence) =>
      if stream.None? || stream.value in streams then Handled(streams, BROKEN, true)
      else
        Handled(streams[stream.value := PeerStream(output, if isSequence then Some(Empty) else None)], [], false)
    case ChunkIn(stream, _, _, _) =>
      if stream.None? || stream.value !in streams then Handled(streams, BROKEN, true)
      else
        var (items, p) := ChunkItems(streams[stream.value], f);
        Handled(streams[stream.value := p], items, false)
    case StreamEnd(stream) =>
      if stream.Some? && stream.value in streams then
        var p := streams[stream.value];
        Handled(streams[stream.value := p.(held := None)], MidItem(p), false)
      else Handled(streams, [], false)
    case LogIn => Handled(streams, [Log], false)
    case End => Handled(streams, CutItems(streams, streams.Keys), true)
    case ErrIn => Handled(streams, [Data(Failed(Remote), None)], true)
    case Unexpected => Handled(streams, BROKEN, true)
  }

  /** Everything the response yields, in order. */
  ghost function Items(streams: Streams, frames: seq<PeerFrame>): seq<ResponseItem>
    decreases |frames|
  {
    if frames == [] then [Data(Failed(Abandoned), None)]
    else
      var h := Handle(streams, frames[0]);
      h.items + if h.ends then [] else Items(h.streams, frames[1..])
  }

  // ---- What nothing more means ----------------------------------------------------------------------

  /** The frame that ends the response, if one is reached that does. */
  ghost function EndedBy(streams: Streams, frames: seq<PeerFrame>): Option<PeerFrame>
    decreases |frames|
  {
    if frames == [] then None
    else
      var h := Handle(streams, frames[0]);
      if h.ends then Some(frames[0]) else EndedBy(h.streams, frames[1..])
  }

  predicate Fails(item: ResponseItem) {
    (item.Data? || item.Output?) && item.o.Failed?
  }

  /** A response whose frames stop before anything ended it yields an abandonment last: it never reads as complete. */
  lemma {:induction false} CutShortIsAbandoned(streams: Streams, frames: seq<PeerFrame>)
    requires EndedBy(streams, frames).None?
    ensures Items(streams, frames) != []
    ensures Items(streams, frames)[|Items(streams, frames)| - 1] == Data(Failed(Abandoned), None)
    decreases |frames|
  {
    if frames != [] {
      var h := Handle(streams, frames[0]);
      CutShortIsAbandoned(h.streams, frames[1..]);
    }
  }

  /** A response that yields no failure was ended by its END: anything else that ends one is itself reported. */
  lemma {:induction false} OnlyEndIsSilent(streams: Streams, frames: seq<PeerFrame>) returns (i: nat)
    requires EndedBy(streams, frames) != Some(End)
    ensures i < |Items(streams, frames)| && Fails(Items(streams, frames)[i])
    decreases |frames|
  {
    if frames == [] {
      return 0;
    }
    var h := Handle(streams, frames[0]);
    if h.ends {
      assert Items(streams, frames) == h.items + [];
      return 0;
    }
    var rest := Items(h.streams, frames[1..]);
    var j := OnlyEndIsSilent(h.streams, frames[1..]);
    assert Items(streams, frames) == h.items + rest;
    i := |h.items| + j;
    assert Items(streams, frames)[i] == rest[j];
  }

  // ---- Each output's own items -----------------------------------------------------------------------

  predicate IsOf(item: ResponseItem, output: Option<Name>) {
    match item
    case Data(_, _) => output.None?
    case Output(name, _, _) => output == Some(name)
    case Log => false
  }

  /** What a reader of one output sees of the response. */
  function Of(items: seq<ResponseItem>, output: Option<Name>): seq<ResponseItem> {
    if items == [] then []
    else (if IsOf(items[0], output) then [items[0]] else []) + Of(items[1..], output)
  }

  lemma {:induction false} OfAppend(a: seq<ResponseItem>, b: seq<ResponseItem>, output: Option<Name>)
    ensures Of(a + b, output) == Of(a, output) + Of(b, output)
  {
    hide IsOf;
    if a == [] {
      assert a + b == b;
    } else {
      assert (a + b)[1..] == a[1..] + b && (a + b)[0] == a[0];
      OfAppend(a[1..], b, output);
      var first := if IsOf(a[0], output) then [a[0]] else [];
      assert first + (Of(a[1..], output) + Of(b, output)) == first + Of(a[1..], output) + Of(b, output);
    }
  }

  predicate AllOf(items: seq<ResponseItem>, output: Option<Name>) {
    forall i :: 0 <= i < |items| ==> IsOf(items[i], output)
  }

  predicate NoneOf(items: seq<ResponseItem>, output: Option<Name>) {
    forall i :: 0 <= i < |items| ==> !IsOf(items[i], output)
  }

  lemma {:induction false} OfAll(items: seq<ResponseItem>, output: Option<Name>)
    ensures AllOf(items, output) ==> Of(items, output) == items
    ensures NoneOf(items, output) ==> Of(items, output) == []
  {
    if items != [] {
      OfAll(items[1..], output);
      assert items == [items[0]] + items[1..];
    }
  }

  lemma ChunkItemsTagged(p: PeerStream, f: PeerFrame, output: Option<Name>)
    requires f.ChunkIn?
    ensures ChunkItems(p, f).1.output == p.output
    ensures if output == p.output then AllOf(ChunkItems(p, f).0, output) else NoneOf(ChunkItems(p, f).0, output)
  {
    hide Feed;
  }

  ghost function Fold(streams: Streams, frames: seq<PeerFrame>): Option<(Streams, seq<ResponseItem>)>
    decreases |frames|
  {
    if frames == [] then Some((streams, []))
    else
      var h := Handle(streams, frames[0]);
      if h.ends then None
      else
        match Fold(h.streams, frames[1..])
        case None => None
        case Some((after, items)) => Some((after, h.items + items))
  }

  lemma Regroup(a: seq<ResponseItem>, b: seq<ResponseItem>, c: seq<ResponseItem>)
    ensures a + (b + c) == a + b + c
  {
  }

  lemma {:induction false} ItemsFold(streams: Streams, frames: seq<PeerFrame>, rest: seq<PeerFrame>)
    requires Fold(streams, frames).Some?
    ensures var (after, items) := Fold(streams, frames).value;
            Items(streams, frames + rest) == items + Items(after, rest)
    decreases |frames|
  {
    hide Handle;
    if frames == [] {
      assert frames + rest == rest;
      assert [] + Items(streams, rest) == Items(streams, rest);
    } else {
      var h := Handle(streams, frames[0]);
      assert (frames + rest)[1..] == frames[1..] + rest;
      ItemsFold(h.streams, frames[1..], rest);
      var (after, items) := Fold(h.streams, frames[1..]).value;
      Regroup(h.items, items, Items(after, rest));
    }
  }

  lemma {:induction false} FoldSnoc(streams: Streams, frames: seq<PeerFrame>, f: PeerFrame)
    requires Fold(streams, frames + [f]).Some?
    ensures Fold(streams, frames).Some?
    ensures var (before, items) := Fold(streams, frames).value;
            var h := Handle(before, f);
            !h.ends && Fold(streams, frames + [f]).value == (h.streams, items + h.items)
    decreases |frames|
  {
    if frames == [] {
      assert (frames + [f])[1..] == [];
      var h := Handle(streams, f);
      assert h.items + [] == h.items == [] + h.items;
    } else {
      var h := Handle(streams, frames[0]);
      assert (frames + [f])[1..] == frames[1..] + [f];
      FoldSnoc(h.streams, frames[1..], f);
      var (before, items) := Fold(h.streams, frames[1..]).value;
      assert h.items + (items + Handle(before, f).items) == h.items + items + Handle(before, f).items;
    }
  }

  predicate About(f: PeerFrame, s: Stream) {
    (f.Start? || f.ChunkIn? || f.StreamEnd?) && f.stream == Some(s)
  }

  function OwnFrames(frames: seq<PeerFrame>, s: Stream): seq<PeerFrame> {
    if frames == [] then []
    else
      var last := frames[|frames| - 1];
      OwnFrames(frames[..|frames| - 1], s) + if About(last, s) then [last] else []
  }

  /** No other stream of the response answers on the same output. */
  predicate SoleStream(frames: seq<PeerFrame>, s: Stream, output: Option<Name>) {
    forall i :: 0 <= i < |frames| && frames[i].Start? && frames[i].stream != Some(s) ==> frames[i].output != output
  }

  datatype Standing = Unseen | Live(p: PeerStream, out: seq<ResponseItem>)

  function Advance(st: Standing, f: PeerFrame): Standing {
    match st
    case Unseen =>
      if f.Start? then Live(PeerStream(f.output, if f.isSequence then Some(Empty) else None), []) else Unseen
    case Live(p, out) =>
      if f.ChunkIn? then
        var (items, after) := ChunkItems(p, f);
        Live(after, out + items)
      else if f.StreamEnd? then Live(p.(held := None), out + MidItem(p))
      else st
  }

  function Standings(own: seq<PeerFrame>): Standing {
    if own == [] then Unseen else Advance(Standings(own[..|own| - 1]), own[|own| - 1])
  }

  ghost predicate Stands(streams: Streams, items: seq<ResponseItem>, s: Stream, output: Option<Name>, st: Standing) {
    (forall t :: t in streams && t != s ==> streams[t].output != output)
    && match st
       case Unseen => s !in streams && Of(items, output) == []
       case Live(p, out) => s in streams && streams[s] == p && (p.output == output ==> Of(items, output) == out)
  }

  /** A frame that does not end the response gives items of its own stream's output only, if any. */
  lemma HandleTagged(streams: Streams, f: PeerFrame, output: Option<Name>)
    requires !Handle(streams, f).ends
    ensures var h := Handle(streams, f);
            if (f.ChunkIn? || f.StreamEnd?) && f.stream.Some? && f.stream.value in streams
               && streams[f.stream.value].output == output
            then Of(h.items, output) == h.items else Of(h.items, output) == []
  {
    var h := Handle(streams, f);
    OfAll(h.items, output);
    if f.ChunkIn? {
      ChunkItemsTagged(streams[f.stream.value], f, output);
      hide ChunkItems;
    }
  }

  lemma OtherStands(streams: Streams, items: seq<ResponseItem>, f: PeerFrame, s: Stream, output: Option<Name>,
                    st: Standing)
    requires Stands(streams, items, s, output, st) && !Handle(streams, f).ends && !About(f, s)
    requires f.Start? ==> f.output != output
    ensures var h := Handle(streams, f);
            Stands(h.streams, items + h.items, s, output, st)
  {
    HandleTagged(streams, f, output);
    hide Handle, Of;
    OfAppend(items, Handle(streams, f).items, output);
    assert Of(items, output) + [] == Of(items, output);
  }

  lemma OwnStands(streams: Streams, items: seq<ResponseItem>, f: PeerFrame, s: Stream, output: Option<Name>,
                  st: Standing)
    requires Stands(streams, items, s, output, st) && !Handle(streams, f).ends && About(f, s)
    ensures var h := Handle(streams, f);
            Stands(h.streams, items + h.items, s, output, Advance(st, f))
  {
    hide CutItems, Of, Feed;
    HandleTagged(streams, f, output);
    OfAppend(items, Handle(streams, f).items, output);
    if f.ChunkIn? {
      ChunkItemsTagged(streams[s], f, output);
      hide ChunkItems;
    }
  }

  lemma HandleStands(streams: Streams, items: seq<ResponseItem>, f: PeerFrame, s: Stream, output: Option<Name>,
                     st: Standing)
    requires Stands(streams, items, s, output, st) && !Handle(streams, f).ends
    requires f.Start? && f.stream != Some(s) ==> f.output != output
    ensures var h := Handle(streams, f);
            Stands(h.streams, items + h.items, s, output, if About(f, s) then Advance(st, f) else st)
  {
    hide Handle, Stands, Advance;
    if About(f, s) {
      OwnStands(streams, items, f, s, output, st);
    } else {
      OtherStands(streams, items, f, s, output, st);
    }
  }

  lemma {:induction false} FoldStands(frames: seq<PeerFrame>, s: Stream, output: Option<Name>)
    requires Fold(map[], frames).Some? && SoleStream(frames, s, output)
    ensures var (streams, items) := Fold(map[], frames).value;
            Stands(streams, items, s, output, Standings(OwnFrames(frames, s)))
  {
    if frames != [] {
      var before, f := frames[..|frames| - 1], frames[|frames| - 1];
      assert frames == before + [f];
      FoldSnoc(map[], before, f);
      FoldStands(before, s, output);
      var (streams, items) := Fold(map[], before).value;
      var own := OwnFrames(before, s);
      hide Handle, Stands, Advance, Fold;
      HandleStands(streams, items, f, s, output, Standings(own));
      if About(f, s) {
        assert (own + [f])[..|own|] == own;
      } else {
        assert own + [] == own;
      }
    }
  }

  // ---- A sequence output, sent and received -----------------------------------------------------------

  function Chunks(s: Stream, bodies: seq<O.Body>): seq<PeerFrame>
    requires Fragments(bodies)
  {
    seq(|bodies|, i requires 0 <= i < |bodies| => ChunkIn(Some(s), Some(bodies[i].bytes), bodies[i].meta, Good))
  }

  lemma StandingsSnoc(own: seq<PeerFrame>, f: PeerFrame)
    ensures Standings(own + [f]) == Advance(Standings(own), f)
  {
    assert (own + [f])[..|own|] == own;
  }

  lemma ChunksSnoc(start: PeerFrame, s: Stream, before: seq<O.Body>, last: O.Body)
    requires Fragments(before) && last.Fragment?
    ensures Fragments(before + [last])
    ensures [start] + Chunks(s, before + [last])
         == [start] + Chunks(s, before) + [ChunkIn(Some(s), Some(last.bytes), last.meta, Good)]
  {
  }

  lemma AdvanceChunk(s: Stream, output: Option<Name>, fed: Fed, last: O.Body)
    requires last.Fragment?
    ensures var after := FeedInto(fed, last);
            Advance(Live(PeerStream(output, Some(fed.state)), OfDeliveries(output, fed.out)),
                    ChunkIn(Some(s), Some(last.bytes), last.meta, Good))
            == Live(PeerStream(output, Some(after.state)), OfDeliveries(output, after.out))
  {
    hide Feed;
    var one := Feed(fed.state, last.bytes, last.meta);
    assert OfDeliveries(output, fed.out + one.out) == OfDeliveries(output, fed.out) + OfDeliveries(output, one.out);
  }

  lemma {:induction false} ChunksStand(s: Stream, output: Option<Name>, bodies: seq<O.Body>)
    requires Fragments(bodies)
    ensures var fed := FeedAll(Fresh, bodies);
            Standings([Start(Some(s), output, true)] + Chunks(s, bodies))
            == Live(PeerStream(output, Some(fed.state)), OfDeliveries(output, fed.out))
    decreases |bodies|
  {
    var start := Start(Some(s), output, true);
    if bodies == [] {
      StandingsSnoc([], start);
      assert [] + [start] == [start] + Chunks(s, bodies);
      assert OfDeliveries(output, []) == [];
    } else {
      hide Advance, Standings, FeedAll, FeedInto;
      var before, last := bodies[..|bodies| - 1], bodies[|bodies| - 1];
      assert bodies == before + [last];
      ChunksStand(s, output, before);
      FeedAllSnoc(Fresh, before, last);
      ChunksSnoc(start, s, before, last);
      StandingsSnoc([start] + Chunks(s, before), ChunkIn(Some(s), Some(last.bytes), last.meta, Good));
      AdvanceChunk(s, output, FeedAll(Fresh, before), last);
    }
  }

  lemma CutNext(streams: Streams, todo: set<Stream>, s: Stream)
    requires todo <= streams.Keys && IsLeast(s, todo)
    ensures CutItems(streams, todo) == MidItem(streams[s]) + CutItems(streams, todo - {s})
  {
    assert forall t :: IsLeast(t, todo) ==> t == s;
  }

  lemma CutNone(streams: Streams)
    ensures CutItems(streams, {}) == []
  {
  }

  /** Other streams' cut items at the END are not on this output. */
  lemma {:induction false} CutElsewhere(streams: Streams, todo: set<Stream>, output: Option<Name>)
    requires todo <= streams.Keys
    requires forall t :: t in todo && streams[t].output == output ==> MidItem(streams[t]) == []
    ensures Of(CutItems(streams, todo), output) == []
    decreases |todo|
  {
    if todo != {} {
      var s := LeastExists(todo);
      CutNext(streams, todo, s);
      CutElsewhere(streams, todo - {s}, output);
      OfAppend(MidItem(streams[s]), CutItems(streams, todo - {s}), output);
      OfAll(MidItem(streams[s]), output);
    }
  }

  /**
    A list of items answered on one output arrives on that output, and on it only
    they do: each item once, with its metadata and in order, whatever the other
    outputs and the log put between them.
  */
  lemma OutputArrives(frames: seq<PeerFrame>, s: Stream, output: Option<Name>, items: seq<ListItem>, maxChunk: nat)
    requires maxChunk > 0 && ItemsOk(items) && Fold(map[], frames).Some? && SoleStream(frames, s, output)
    requires OwnFrames(frames, s)
          == [Start(Some(s), output, true)] + Chunks(s, ListBodies(items, maxChunk)) + [StreamEnd(Some(s))]
    ensures Of(Items(map[], frames + [End]), output) == OfDeliveries(output, Deliveries(items))
  {
    hide FeedAll, ListBodies, Fold, OwnFrames, Standings, CutItems, Chunks;
    var bodies := ListBodies(items, maxChunk);
    ItemsRoundTrip(items, maxChunk);
    ChunksStand(s, output, bodies);
    StandingsSnoc([Start(Some(s), output, true)] + Chunks(s, bodies), StreamEnd(Some(s)));
    FoldStands(frames, s, output);
    var (streams, all) := Fold(map[], frames).value;
    ItemsFold(map[], frames, [End]);
    var cut := CutItems(streams, streams.Keys);
    assert Items(streams, [End]) == cut + [];
    assert cut + [] == cut;
    OfAppend(all, cut, output);
    CutElsewhere(streams, streams.Keys, output);
    var out := OfDeliveries(output, Deliveries(items));
    assert out + [] == out;
  }

  // ---- The puller ------------------------------------------------------------------------------------

  class Puller {
    var frames: seq<PeerFrame>
    var streams: Streams
    var pendingItems: seq<ResponseItem>
    var ended: bool

    /** What is still to come. */
    ghost function Remaining(): seq<ResponseItem>
      reads this
    {
      pendingItems + if ended then [] else Items(streams, frames)
    }

    constructor (frames: seq<PeerFrame>)
      ensures Remaining() == Items(map[], frames) && !ended
    {
      this.frames := frames;
      streams, pendingItems, ended := map[], [], false;
      new;
      assert [] + Items(map[], frames) == Items(map[], frames);
    }

    /** The next item; nothing only once the response has ended and everything of it was yielded. */
    method Next() returns (item: Option<ResponseItem>)
      modifies this
      ensures old(Remaining()) == [] ==> item == None && ended && Remaining() == []
      ensures old(Remaining()) != [] ==> item == Some(old(Remaining())[0]) && Remaining() == old(Remaining())[1..]
    {
      Fill();
      if |pendingItems| == 0 {
        return None;
      }
      hide Items;
      ghost var rest := if ended then [] else Items(streams, frames);
      assert (pendingItems + rest)[1..] == pendingItems[1..] + rest;
      item := Some(pendingItems[0]);
      pendingItems := pendingItems[1..];
    }

    /** Reads on until there is something to yield, or nothing more to read. */
    method Fill()
      modifies this
      ensures Remaining() == old(Remaining()) && (ended || pendingItems != [])
    {
      hide Items;
      while !ended && |pendingItems| == 0
        invariant Remaining() == old(Remaining())
        decreases !ended, |frames|
      {
        Pull();
      }
    }

    /** Reads one frame, or finds there are no more. */
    method Pull()
      requires !ended && pendingItems == []
      modifies this
      ensures Remaining() == old(Remaining())
      ensures ended || |frames| < |old(frames)|
    {
      ghost var all := Items(streams, frames);
      assert [] + all == all;
      if |frames| == 0 {
        ended := true;
        pendingItems := [Data(Failed(Abandoned), None)];
        assert pendingItems + [] == pendingItems;
        return;
      }
      var f := frames[0];
      ghost var h := Handle(streams, f);
      ghost var was := streams;
      assert all == h.items + if h.ends then [] else Items(h.streams, frames[1..]);
      match f {
        case Start(stream, output, isSequence) =>
          if stream.None? || stream.value in streams {
            ended, pendingItems := true, BROKEN;
          } else {
            streams := streams[stream.value := PeerStream(output, if isSequence then Some(Empty) else None)];
          }
        case ChunkIn(stream, _, _, _) =>
          if stream.None? || stream.value !in streams {
            ended, pendingItems := true, BROKEN;
          } else {
            var (items, p) := ChunkItems(streams[stream.value], f);
            streams := streams[stream.value := p];
            pendingItems := items;
          }
        case StreamEnd(stream) =>
          if stream.Some? && stream.value in streams {
            var p := streams[stream.value];
            streams := streams[stream.value := p.(held := None)];
            pendingItems := MidItem(p);
          }
        case LogIn =>
          pendingItems := [Log];
        case End =>
          ended := true;
          pendingItems := AllCut(streams);
        case ErrIn =>
          ended, pendingItems := true, [Data(Failed(Remote), None)];
        case Unexpected =>
          ended, pendingItems := true, BROKEN;
      }
      frames := frames[1..];
      assert pendingItems == h.items && ended == h.ends && (!ended ==> streams == h.streams);
    }
  }

  /** Ends every stream inside an item, in the order of their ids. */
  method AllCut(streams: Streams) returns (items: seq<ResponseItem>)
    ensures items == CutItems(streams, streams.Keys)
  {
    hide CutItems;
    items := [];
    var todo := streams.Keys;
    ghost var all := CutItems(streams, streams.Keys);
    assert [] + all == all;
    while todo != {}
      invariant todo <= streams.Keys && items + CutItems(streams, todo) == all
      decreases todo
    {
      ghost var least := LeastExists(todo);
      var s :| s in todo && forall t :: t in todo ==> s <= t;
      CutNext(streams, todo, s);
      assert items + (MidItem(streams[s]) + CutItems(streams, todo - {s}))
          == items + MidItem(streams[s]) + CutItems(streams, todo - {s});
      items := items + MidItem(streams[s]);
      todo := todo - {s};
    }
    CutNone(streams);
    assert items + [] == items;
  }
}
