/**
  The main loop's side of a request's input: the frame queue it makes for each REQ,
  who finishes it, and what that leaves the handler's demux with.
*/
module RequestInputs {
  import opened Demux
  import opened ItemReassembly
  import opened Pools
  import opened Wrappers

  datatype Input = Input(frames: seq<RequestFrame>, finished: bool)

  // `inputs` are the queues of all requests that ever came; `pending` finds the one a frame goes to.
  datatype Feeds = Feeds(inputs: seq<Input>, pending: map<Rid, nat>, over: bool)

  // A STREAM_START, CHUNK or STREAM_END is forwarded; END and ERR are terminal.  `Stopped` is a cancel that takes
  // its request out of line or is granted its claim; `LoopOver` the end of the connection, a read error, or a frame
  // the loop throws on.
  datatype LoopEvent =
    | Requested(rid: Rid)
    | Forwarded(rid: Rid, f: RequestFrame)
    | Terminal(rid: Rid, f: RequestFrame)
    | Stopped(rid: Rid)
    | LoopOver

  const NoFeeds := Feeds([], map[], false)

  function Pushed(i: Input, f: RequestFrame): Input {
    i.(frames := i.frames + [f])
  }

  predicate FeedsWf(l: Feeds) {
    (forall r :: r in l.pending ==> l.pending[r] < |l.inputs|)
    && (forall r, s :: r in l.pending && s in l.pending && r != s ==> l.pending[r] != l.pending[s])
  }

  /** A REQ's queue replaces any other under its id; once the loop is over nothing is finished any more. */
  function Next(l: Feeds, e: LoopEvent): (after: Feeds)
    requires FeedsWf(l)
    ensures FeedsWf(after)
  {
    if l.over then l
    else
      match e
      case Requested(rid) => l.(inputs := l.inputs + [Input([], false)], pending := l.pending[rid := |l.inputs|])
      case Forwarded(rid, f) =>
        if rid in l.pending then l.(inputs := l.inputs[l.pending[rid] := Pushed(l.inputs[l.pending[rid]], f)]) else l
      case Terminal(rid, f) =>
        if rid in l.pending then
          var ended := Pushed(l.inputs[l.pending[rid]], f).(finished := true);
          l.(inputs := l.inputs[l.pending[rid] := ended], pending := l.pending - {rid})
        else l
      case Stopped(rid) =>
        if rid in l.pending then
          var cut := l.inputs[l.pending[rid]].(finished := true);
          l.(inputs := l.inputs[l.pending[rid] := cut], pending := l.pending - {rid})
        else l
      case LoopOver => l.(over := true)
  }

  function NextAll(l: Feeds, events: seq<LoopEvent>): (after: Feeds)
    requires FeedsWf(l)
    ensures FeedsWf(after)
    decreases |events|
  {
    if events == [] then l else NextAll(Next(l, events[0]), events[1..])
  }

  lemma {:induction false} NextAllAppend(l: Feeds, first: seq<LoopEvent>, rest: seq<LoopEvent>)
    requires FeedsWf(l)
    ensures NextAll(l, first + rest) == NextAll(NextAll(l, first), rest)
    decreases |first|
  {
    if first == [] {
      assert first + rest == rest;
    } else {
      assert (first + rest)[1..] == first[1..] + rest;
      NextAllAppend(Next(l, first[0]), first[1..], rest);
    }
  }

  // ---- One request's input ---------------------------------------------------------------------------

  /** What an input becomes while its id is its own: nothing reaches it behind the next REQ under its id. */
  function Received(i: Input, rid: Rid, rest: seq<LoopEvent>): Input
    decreases |rest|
  {
    if rest == [] || rest[0].LoopOver? || rest[0] == Requested(rid) then i
    else if rest[0].rid != rid then Received(i, rid, rest[1..])
    else
      match rest[0]
      case Forwarded(_, f) => Received(Pushed(i, f), rid, rest[1..])
      case Terminal(_, f) => Pushed(i, f).(finished := true)
      case _ => i.(finished := true)
  }

  lemma LeftAloneStep(l: Feeds, k: nat, e: LoopEvent)
    requires FeedsWf(l) && k < |l.inputs| && (k !in l.pending.Values || l.over)
    ensures var after := Next(l, e);
            k < |after.inputs| && after.inputs[k] == l.inputs[k] && (k !in after.pending.Values || after.over)
  {
  }

  /** An input no id finds any more stays as it is. */
  lemma {:induction false} LeftAlone(l: Feeds, k: nat, rest: seq<LoopEvent>)
    requires FeedsWf(l) && k < |l.inputs| && (k !in l.pending.Values || l.over)
    ensures k < |NextAll(l, rest).inputs| && NextAll(l, rest).inputs[k] == l.inputs[k]
    decreases |rest|
  {
    hide Next;
    if rest != [] {
      LeftAloneStep(l, k, rest[0]);
      LeftAlone(Next(l, rest[0]), k, rest[1..]);
    }
  }

  lemma {:induction false} InputIsReceived(l: Feeds, rid: Rid, rest: seq<LoopEvent>)
    requires FeedsWf(l) && rid in l.pending && !l.over
    ensures var k := l.pending[rid];
            k < |NextAll(l, rest).inputs| && NextAll(l, rest).inputs[k] == Received(l.inputs[k], rid, rest)
    decreases |rest|
  {
    if rest != [] {
      var after := Next(l, rest[0]);
      if rest[0].LoopOver? || rest[0] == Requested(rid) || (rest[0].rid == rid && !rest[0].Forwarded?) {
        LeftAlone(after, l.pending[rid], rest[1..]);
      } else {
        InputIsReceived(after, rid, rest[1..]);
      }
    }
  }

  lemma RequestIsReceived(l: Feeds, rid: Rid, rest: seq<LoopEvent>)
    requires FeedsWf(l) && !l.over
    ensures var k := |l.inputs|;
            var after := NextAll(l, [Requested(rid)] + rest);
            k < |after.inputs| && after.inputs[k] == Received(Input([], false), rid, rest)
  {
    assert ([Requested(rid)] + rest)[1..] == rest;
    InputIsReceived(Next(l, Requested(rid)), rid, rest);
  }

  // ---- What ends a request's input ---------------------------------------------------------------------

  /** The event ends the input of the request that runs under `rid`: its END or ERR, a malformed frame, a cancel. */
  predicate Ends(e: LoopEvent, rid: Rid) {
    e == Stopped(rid) || (e.Terminal? && e.rid == rid) || (e.Forwarded? && e.rid == rid && Stops(e.f))
  }

  predicate EndsAt(rid: Rid, rest: seq<LoopEvent>, n: nat) {
    n < |rest| && Ends(rest[n], rid)
    && forall m :: 0 <= m < n ==> !Ends(rest[m], rid) && !rest[m].LoopOver? && rest[m] != Requested(rid)
  }

  /** The request's input comes to an end. */
  ghost predicate ComesToEnd(rid: Rid, rest: seq<LoopEvent>) {
    exists n: nat :: EndsAt(rid, rest, n)
  }

  /** And what ends it is a cancel. */
  ghost predicate IsCutShort(rid: Rid, rest: seq<LoopEvent>) {
    exists n: nat :: EndsAt(rid, rest, n) && rest[n].Stopped?
  }

  // As the loop sorts frames by their type.
  predicate WellTyped(e: LoopEvent) {
    (e.Terminal? ==> e.f.End? || e.f.ErrIn?) && (e.Forwarded? ==> !e.f.End? && !e.f.ErrIn?)
  }

  predicate AllWellTyped(events: seq<LoopEvent>) {
    forall i :: 0 <= i < |events| ==> WellTyped(events[i])
  }

  lemma {:induction false} ReceivedGrows(i: Input, rid: Rid, rest: seq<LoopEvent>)
    ensures Prefix(i.frames, Received(i, rid, rest).frames)
    decreases |rest|
  {
    if rest == [] || rest[0].LoopOver? || rest[0] == Requested(rid) {
    } else if rest[0].rid != rid {
      ReceivedGrows(i, rid, rest[1..]);
    } else if rest[0].Forwarded? {
      ReceivedGrows(Pushed(i, rest[0].f), rid, rest[1..]);
    }
  }

  /** The demux sees an end: the frames run out, or one of them stops it. */
  predicate Over(i: Input) {
    i.finished || !NoStops(i.frames)
  }

  lemma EndsLater(rid: Rid, rest: seq<LoopEvent>, n: nat)
    requires rest != [] && !Ends(rest[0], rid) && !rest[0].LoopOver? && rest[0] != Requested(rid)
    ensures EndsAt(rid, rest, n + 1) <==> EndsAt(rid, rest[1..], n)
  {
    if EndsAt(rid, rest[1..], n) {
      forall m | 0 <= m < n + 1
        ensures !Ends(rest[m], rid) && !rest[m].LoopOver? && rest[m] != Requested(rid)
      {
        assert m > 0 ==> rest[m] == rest[1..][m - 1];
      }
    }
    if EndsAt(rid, rest, n + 1) {
      assert rest[1..][n] == rest[n + 1];
      forall m | 0 <= m < n
        ensures !Ends(rest[1..][m], rid) && !rest[1..][m].LoopOver? && rest[1..][m] != Requested(rid)
      {
        assert rest[1..][m] == rest[m + 1];
      }
    }
  }

  lemma {:induction false} ReceivedEnds(i: Input, rid: Rid, rest: seq<LoopEvent>)
    requires NoStops(i.frames) && !i.finished && AllWellTyped(rest)
    ensures var r := Received(i, rid, rest);
            (Over(r) <==> ComesToEnd(rid, rest)) && (r.finished && NoStops(r.frames) <==> IsCutShort(rid, rest))
    decreases |rest|
  {
    if rest == [] || rest[0].LoopOver? || rest[0] == Requested(rid) {
    } else if Ends(rest[0], rid) {
      EndsNow(i, rid, rest);
    } else {
      ReceivedEnds(if rest[0].rid == rid then Pushed(i, rest[0].f) else i, rid, rest[1..]);
      EndLater(rid, rest);
    }
  }

  lemma EndLater(rid: Rid, rest: seq<LoopEvent>)
    requires rest != [] && !Ends(rest[0], rid) && !rest[0].LoopOver? && rest[0] != Requested(rid)
    ensures ComesToEnd(rid, rest) <==> ComesToEnd(rid, rest[1..])
    ensures IsCutShort(rid, rest) <==> IsCutShort(rid, rest[1..])
  {
    forall n: nat
      ensures EndsAt(rid, rest, n + 1) <==> EndsAt(rid, rest[1..], n)
    {
      EndsLater(rid, rest, n);
    }
    if n: nat :| EndsAt(rid, rest, n) {
      assert EndsAt(rid, rest[1..], n - 1);
    }
    if n: nat :| EndsAt(rid, rest[1..], n) {
      assert EndsAt(rid, rest, n + 1);
    }
    if n: nat :| EndsAt(rid, rest, n) && rest[n].Stopped? {
      assert EndsAt(rid, rest[1..], n - 1);
    }
    if n: nat :| EndsAt(rid, rest[1..], n) && rest[1..][n].Stopped? {
      assert EndsAt(rid, rest, n + 1);
    }
  }

  lemma EndsNow(i: Input, rid: Rid, rest: seq<LoopEvent>)
    requires NoStops(i.frames) && !i.finished && rest != [] && WellTyped(rest[0]) && Ends(rest[0], rid)
    ensures EndsAt(rid, rest, 0) && Over(Received(i, rid, rest))
    ensures NoStops(Received(i, rid, rest).frames) <==> rest[0].Stopped?
    ensures forall n :: EndsAt(rid, rest, n) ==> n == 0
  {
    if !rest[0].Stopped? {
      var f := rest[0].f;
      if rest[0].Forwarded? {
        ReceivedGrows(Pushed(i, f), rid, rest[1..]);
      }
      assert Received(i, rid, rest).frames[|i.frames|] == f;
    }
  }

  // ---- What the handler's readers see ------------------------------------------------------------------

  /** The demux waits for more frames until the queue is finished, or a frame stops it. */
  function Demuxed(i: Input): Demux {
    if Over(i) then RunFrom(Idle, i.frames) else Fold(Idle, i.frames)
  }

  predicate NotAbandoned(d: Demux) {
    PackageFail(Abandoned) !in d.package
  }

  lemma {:induction false} FoldGoesOn(d: Demux, frames: seq<RequestFrame>)
    requires Wf(d) && NoStops(frames) && !d.closed && NotAbandoned(d)
    ensures !Fold(d, frames).closed && NotAbandoned(Fold(d, frames))
    decreases |frames|
  {
    if frames != [] {
      StepWf(d, frames[0]);
      FoldGoesOn(Step(d, frames[0]), frames[1..]);
    }
  }

  lemma {:induction false} RunCloses(d: Demux, frames: seq<RequestFrame>)
    requires Wf(d) && NotAbandoned(d)
    ensures RunFrom(d, frames).closed && (NotAbandoned(RunFrom(d, frames)) <==> !NoStops(frames))
    decreases |frames|
  {
    if frames == [] {
      assert CutShort(d).package == d.package + [PackageFail(Abandoned)];
      assert PackageFail(Abandoned) in FinishAll(CutShort(d)).package;
    } else if !Stops(frames[0]) {
      StepWf(d, frames[0]);
      RunCloses(Step(d, frames[0]), frames[1..]);
      assert NoStops(frames) <==> NoStops(frames[1..]) by {
        assert frames == [frames[0]] + frames[1..];
      }
    }
  }

  lemma DemuxedIff(i: Input)
    ensures Demuxed(i).closed <==> Over(i)
    ensures PackageFail(Abandoned) in Demuxed(i).package <==> i.finished && NoStops(i.frames)
  {
    if Over(i) {
      RunCloses(Idle, i.frames);
    } else {
      FoldGoesOn(Idle, i.frames);
    }
  }

  /**
    Over every run: a request's input comes to an end exactly if its END, its ERR, a
    malformed frame or a cancel of it comes before another REQ under its id and before
    the loop is over; and its package is failed as cut short exactly if the first of
    these is the cancel.
  */
  lemma InputEndsIff(before: seq<LoopEvent>, rid: Rid, rest: seq<LoopEvent>)
    requires AllWellTyped(rest) && !NextAll(NoFeeds, before).over
    ensures var k := |NextAll(NoFeeds, before).inputs|;
            var l := NextAll(NoFeeds, before + ([Requested(rid)] + rest));
            k < |l.inputs|
            && (Demuxed(l.inputs[k]).closed <==> ComesToEnd(rid, rest))
            && (PackageFail(Abandoned) in Demuxed(l.inputs[k]).package <==> IsCutShort(rid, rest))
  {
    hide NextAll, ComesToEnd, IsCutShort, Demuxed, Received;
    NextAllAppend(NoFeeds, before, [Requested(rid)] + rest);
    RequestIsReceived(NextAll(NoFeeds, before), rid, rest);
    ReceivedEnds(Input([], false), rid, rest);
    DemuxedIff(Received(Input([], false), rid, rest));
  }

  /** The frames that come under an id. */
  function FramesUnder(rid: Rid, events: seq<LoopEvent>): seq<RequestFrame> {
    if events == [] then []
    else
      var e := events[|events| - 1];
      FramesUnder(rid, events[..|events| - 1])
      + if (e.Forwarded? || e.Terminal?) && e.rid == rid then [e.f] else []
  }

  lemma {:induction false} FramesUnderCons(rid: Rid, e: LoopEvent, events: seq<LoopEvent>)
    ensures FramesUnder(rid, [e] + events) == FramesUnder(rid, [e]) + FramesUnder(rid, events)
  {
    if events == [] {
      assert [e] + events == [e];
    } else {
      FramesUnderCons(rid, e, events[..|events| - 1]);
      assert ([e] + events)[..|events|] == [e] + events[..|events| - 1];
    }
  }

  lemma {:induction false} ReceivedIsAll(i: Input, rid: Rid, rest: seq<LoopEvent>)
    requires forall n :: 0 <= n < |rest| ==> !rest[n].LoopOver? && rest[n] != Requested(rid)
    requires forall n :: 0 <= n < |rest| - 1 ==> !Ends(rest[n], rid)
    ensures Received(i, rid, rest).frames == i.frames + FramesUnder(rid, rest)
    decreases |rest|
  {
    if rest == [] {
      assert i.frames + [] == i.frames;
    } else {
      var e := rest[0];
      assert rest == [e] + rest[1..];
      FramesUnderCons(rid, e, rest[1..]);
      assert [e][..0] == [] && FramesUnder(rid, [])  == [];
      if e.rid != rid {
        ReceivedIsAll(i, rid, rest[1..]);
      } else if e.Forwarded? {
        ReceivedIsAll(Pushed(i, e.f), rid, rest[1..]);
      } else {
        assert rest[1..] == [];
      }
    }
  }

  /** Until it is ended or displaced, a request's input is exactly the frames that came under its id, in order. */
  lemma InputIsWhatCame(before: seq<LoopEvent>, rid: Rid, rest: seq<LoopEvent>)
    requires !NextAll(NoFeeds, before).over
    requires forall n :: 0 <= n < |rest| ==> !rest[n].LoopOver? && rest[n] != Requested(rid)
    requires forall n :: 0 <= n < |rest| - 1 ==> !Ends(rest[n], rid)
    ensures var k := |NextAll(NoFeeds, before).inputs|;
            var l := NextAll(NoFeeds, before + ([Requested(rid)] + rest));
            k < |l.inputs| && l.inputs[k].frames == FramesUnder(rid, rest)
  {
    hide NextAll, Received;
    NextAllAppend(NoFeeds, before, [Requested(rid)] + rest);
    RequestIsReceived(NextAll(NoFeeds, before), rid, rest);
    ReceivedIsAll(Input([], false), rid, rest);
    assert [] + FramesUnder(rid, rest) == FramesUnder(rid, rest);
  }

  /** The smallest failing runs: the id comes again, or the loop is over, and nothing that comes then ends the input. */
  lemma NeverEnds(rid: Rid, displaced: bool, rest: seq<LoopEvent>)
    requires AllWellTyped(rest)
    ensures var end := if displaced then Requested(rid) else LoopOver;
            var l := NextAll(NoFeeds, [Requested(rid), end] + rest);
            |l.inputs| > 0 && !Demuxed(l.inputs[0]).closed && NotAbandoned(Demuxed(l.inputs[0]))
  {
    var after := [if displaced then Requested(rid) else LoopOver] + rest;
    assert !Ends(after[0], rid) && forall n: nat :: !EndsAt(rid, after, n);
    assert [Requested(rid), after[0]] + rest == [] + ([Requested(rid)] + after);
    InputEndsIff([], rid, after);
  }

  // ---- The loop's dictionary ---------------------------------------------------------------------------

  class PendingIncoming {
    var inputs: seq<Input>
    var pending: map<Rid, nat>
    var over: bool

    ghost function State(): Feeds
      reads this
    {
      Feeds(inputs, pending, over)
    }

    constructor ()
      ensures State() == NoFeeds
    {
      inputs, pending, over := [], map[], false;
    }

    /** The turn of the loop for one event, once it is not over. */
    method Handle(e: LoopEvent)
      requires FeedsWf(State()) && !over
      modifies this
      ensures State() == Next(old(State()), e)
    {
      match e
      case Requested(rid) =>
        pending := pending[rid := |inputs|];
        inputs := inputs + [Input([], false)];
      case Forwarded(rid, f) =>
        if rid in pending {
          inputs := inputs[pending[rid] := Pushed(inputs[pending[rid]], f)];
        }
      case Terminal(rid, f) =>
        if rid in pending {
          var k := pending[rid];
          pending := pending - {rid};
          inputs := inputs[k := Pushed(inputs[k], f)];
          inputs := inputs[k := inputs[k].(finished := true)];
        }
      case Stopped(rid) =>
        if rid in pending {
          var k := pending[rid];
          pending := pending - {rid};
          inputs := inputs[k := inputs[k].(finished := true)];
        }
      case LoopOver => over := true;
    }
  }
}
