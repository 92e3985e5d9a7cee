/**
  The rules a request's frames must follow, as the checker of emissions decides
  them, and their reading one stream at a time.
*/
module Emission {
  import opened OutputStream
  import opened Wrappers

  type Stream = nat

  datatype Emitted =
    | OfStream(stream: Stream, frame: StreamFrame)
    | Fin
    | Failed
    | Other

  datatype Violation =
    | AfterEnd
    | StreamRestarted(stream: Stream)
    | StreamNotOpen(stream: Stream)
    | ChunkOutOfPlace(stream: Stream, expected: nat, got: nat)
    | ChunkCountWrong(stream: Stream, sent: nat, said: nat)
    | EndWithOpenStream(stream: Stream)

  datatype OpenStream = OpenStream(stream: Stream, chunks: nat)
  datatype Emission = Emission(open: seq<OpenStream>, ended: seq<Stream>, finished: bool)

  const Begin := Emission([], [], false)

  function Lookup(open: seq<OpenStream>, s: Stream): Option<nat> {
    if open == [] then None
    else if open[0].stream == s then Some(open[0].chunks)
    else Lookup(open[1..], s)
  }

  function Count(open: seq<OpenStream>, s: Stream, chunks: nat): seq<OpenStream> {
    if open == [] then []
    else [if open[0].stream == s then OpenStream(s, chunks) else open[0]] + Count(open[1..], s, chunks)
  }

  function Without(open: seq<OpenStream>, s: Stream): seq<OpenStream> {
    if open == [] then []
    else (if open[0].stream == s then [] else [open[0]]) + Without(open[1..], s)
  }

  function Step(e: Emission, f: Emitted): Result<Emission, Violation> {
    if e.finished then Err(AfterEnd)
    else
      match f
      case OfStream(s, StreamStart(_, _)) =>
        if Lookup(e.open, s).Some? || s in e.ended then Err(StreamRestarted(s))
        else Ok(e.(open := e.open + [OpenStream(s, 0)]))
      case OfStream(s, Chunk(index, _)) =>
        (match Lookup(e.open, s)
         case None => Err(StreamNotOpen(s))
         case Some(n) =>
           if index != n then Err(ChunkOutOfPlace(s, n, index)) else Ok(e.(open := Count(e.open, s, n + 1))))
      case OfStream(s, StreamEnd(count)) =>
        (match Lookup(e.open, s)
         case None => Err(StreamNotOpen(s))
         case Some(n) =>
           if count.Some? && count.value != n then Err(ChunkCountWrong(s, n, count.value))
           else Ok(e.(open := Without(e.open, s), ended := e.ended + [s])))
      case Fin => if e.open == [] then Ok(e.(finished := true)) else Err(EndWithOpenStream(e.open[0].stream))
      case Failed => Ok(e.(finished := true))
      case Other => Ok(e)
  }

  /** The state after all the frames, or the first violation. */
  function After(frames: seq<Emitted>): Result<Emission, Violation> {
    if frames == [] then Ok(Begin)
    else
      match After(frames[..|frames| - 1])
      case Err(v) => Err(v)
      case Ok(e) => Step(e, frames[|frames| - 1])
  }

  predicate Accepted(frames: seq<Emitted>) {
    After(frames).Ok?
  }

  lemma AfterSnoc(frames: seq<Emitted>, f: Emitted)
    ensures After(frames + [f])
         == match After(frames)
            case Err(v) => Err(v)
            case Ok(e) => Step(e, f)
  {
    assert (frames + [f])[..|frames|] == frames;
  }

  // ---- One stream at a time ------------------------------------------------------------

  datatype View = Unseen | Live(chunks: nat) | Over

  function Of(e: Emission, s: Stream): View {
    if Lookup(e.open, s).Some? then Live(Lookup(e.open, s).value)
    else if s in e.ended then Over else Unseen
  }

  function StreamStep(v: View, f: StreamFrame): Option<View> {
    match f
    case StreamStart(_, _) => if v == Unseen then Some(Live(0)) else None
    case Chunk(index, _) => if v == Live(index) then Some(Live(index + 1)) else None
    case StreamEnd(count) => if v.Live? && (count.None? || count.value == v.chunks) then Some(Over) else None
  }

  /** One stream's own frames against the rules. */
  function Follow(wire: seq<StreamFrame>): Option<View> {
    if wire == [] then Some(Unseen)
    else
      match Follow(wire[..|wire| - 1])
      case None => None
      case Some(v) => StreamStep(v, wire[|wire| - 1])
  }

  function Project(frames: seq<Emitted>, s: Stream): seq<StreamFrame> {
    if frames == [] then []
    else
      var last := frames[|frames| - 1];
      Project(frames[..|frames| - 1], s) + if last.OfStream? && last.stream == s then [last.frame] else []
  }

  lemma ProjectSnoc(frames: seq<Emitted>, f: Emitted, s: Stream)
    ensures Project(frames + [f], s) == Project(frames, s) + if f.OfStream? && f.stream == s then [f.frame] else []
  {
    assert (frames + [f])[..|frames|] == frames;
  }

  lemma {:induction false} LookupAppend(open: seq<OpenStream>, last: OpenStream, t: Stream)
    ensures Lookup(open + [last], t)
         == if Lookup(open, t).Some? then Lookup(open, t)
            else if last.stream == t then Some(last.chunks) else None
  {
    if open != [] {
      assert (open + [last])[1..] == open[1..] + [last];
      LookupAppend(open[1..], last, t);
    }
  }

  lemma {:induction false} LookupCount(open: seq<OpenStream>, s: Stream, n: nat, t: Stream)
    ensures Lookup(Count(open, s, n), t)
         == if t == s && Lookup(open, s).Some? then Some(n) else Lookup(open, t)
  {
    if open != [] {
      LookupCount(open[1..], s, n, t);
    }
  }

  lemma {:induction false} LookupWithout(open: seq<OpenStream>, s: Stream, t: Stream)
    ensures Lookup(Without(open, s), t) == if t == s then None else Lookup(open, t)
  {
    if open != [] {
      LookupWithout(open[1..], s, t);
      assert [] + Without(open[1..], s) == Without(open[1..], s);
    }
  }

  /** The rules look at nothing but the frame's own stream. */
  lemma StepIsPerStream(e: Emission, s: Stream, f: StreamFrame, t: Stream)
    requires !e.finished
    ensures Step(e, OfStream(s, f)).Ok? <==> StreamStep(Of(e, s), f).Some?
    ensures Step(e, OfStream(s, f)).Ok? ==>
              var after := Step(e, OfStream(s, f)).value;
              !after.finished && Of(after, t) == if t == s then StreamStep(Of(e, s), f).value else Of(e, t)
  {
    match f
    case StreamStart(_, _) => LookupAppend(e.open, OpenStream(s, 0), t);
    case Chunk(index, _) => LookupCount(e.open, s, index + 1, t);
    case StreamEnd(_) => LookupWithout(e.open, s, t);
  }

  predicate Unfinished(frames: seq<Emitted>) {
    forall i :: 0 <= i < |frames| ==> frames[i].OfStream? || frames[i].Other?
  }

  /** Each stream followed on its own is where the whole emission has it. */
  ghost predicate Views(frames: seq<Emitted>, e: Emission) {
    !e.finished && forall s :: Follow(Project(frames, s)) == Some(Of(e, s))
  }

  lemma {:induction false} AcceptedViews(frames: seq<Emitted>)
    requires Unfinished(frames) && Accepted(frames)
    ensures Views(frames, After(frames).value)
  {
    if frames != [] {
      var before, f := frames[..|frames| - 1], frames[|frames| - 1];
      AcceptedViews(before);
      assert frames == before + [f];
      var e := After(before).value;
      hide After, Views, Step, Project, Follow;
      AfterSnoc(before, f);
      ViewsSnoc(before, e, f);
    }
  }

  lemma ViewsSnoc(before: seq<Emitted>, e: Emission, f: Emitted)
    requires Views(before, e) && Step(e, f).Ok? && (f.OfStream? || f.Other?)
    ensures Views(before + [f], Step(e, f).value)
  {
    forall t: Stream
      ensures Follow(Project(before + [f], t)) == Some(Of(Step(e, f).value, t))
    {
      ViewSnoc(before, e, f, t);
    }
    if f.OfStream? {
      StepIsPerStream(e, f.stream, f.frame, f.stream);
    }
  }

  lemma ViewSnoc(before: seq<Emitted>, e: Emission, f: Emitted, t: Stream)
    requires Views(before, e) && Step(e, f).Ok? && (f.OfStream? || f.Other?)
    ensures Follow(Project(before + [f], t)) == Some(Of(Step(e, f).value, t))
  {
    ProjectSnoc(before, f, t);
    var own := Project(before, t);
    assert Follow(own) == Some(Of(e, t));
    hide Project, Of;
    if f.OfStream? {
      StepIsPerStream(e, f.stream, f.frame, t);
      assert (own + [f.frame])[..|own|] == own;
    }
    assert own + [] == own;
  }

  /**
    Interleaving never matters: frames of any number of streams, in any order
    between the streams, are accepted exactly when every stream's own frames are.
  */
  lemma {:induction false} AcceptedIff(frames: seq<Emitted>)
    requires Unfinished(frames)
    ensures Accepted(frames) <==> forall s :: Follow(Project(frames, s)).Some?
  {
    if frames != [] {
      var before, f := frames[..|frames| - 1], frames[|frames| - 1];
      assert frames == before + [f];
      AcceptedIff(before);
      if Accepted(before) {
        AcceptedViews(before);
        if f.OfStream? {
          StepIsPerStream(After(before).value, f.stream, f.frame, f.stream);
          ProjectSnoc(before, f, f.stream);
        }
      } else {
        var s :| Follow(Project(before, s)).None?;
        ProjectSnoc(before, f, s);
        assert Project(before, s) + [] == Project(before, s);
        assert Follow(Project(frames, s)).None?;
      }
      if Accepted(frames) {
        AcceptedViews(frames);
      }
    }
  }

  /** The stream was started and not ended. */
  predicate LeftLive(frames: seq<Emitted>, s: Stream) {
    Follow(Project(frames, s)).Some? && Follow(Project(frames, s)).value.Live?
  }

  /** END after such frames is accepted exactly when no stream is left live; ERR always is. */
  lemma TerminalIff(frames: seq<Emitted>)
    requires Unfinished(frames) && Accepted(frames)
    ensures Accepted(frames + [Failed])
    ensures Accepted(frames + [Fin]) <==> forall s :: !LeftLive(frames, s)
  {
    AcceptedViews(frames);
    var e := After(frames).value;
    AfterSnoc(frames, Failed);
    AfterSnoc(frames, Fin);
    if e.open == [] {
      forall s
        ensures !LeftLive(frames, s)
      {
        assert Lookup(e.open, s).None?;
      }
    } else {
      var s := e.open[0].stream;
      assert Follow(Project(frames, s)) == Some(Of(e, s));
      assert LeftLive(frames, s);
    }
  }

  /** What the first violation says is so, of the offending frame and of its stream's frames before it. */
  ghost predicate Says(frames: seq<Emitted>, f: Emitted, v: Violation) {
    match v
    case AfterEnd => false
    case StreamRestarted(s) =>
      f.OfStream? && f.stream == s && f.frame.StreamStart? && Follow(Project(frames, s)) != Some(Unseen)
    case StreamNotOpen(s) => f.OfStream? && f.stream == s && !f.frame.StreamStart? && !LeftLive(frames, s)
    case ChunkOutOfPlace(s, expected, got) =>
      f.OfStream? && f.stream == s && f.frame.Chunk? && f.frame.index == got != expected
      && Follow(Project(frames, s)) == Some(Live(expected))
    case ChunkCountWrong(s, sent, said) =>
      f.OfStream? && f.stream == s && f.frame == StreamEnd(Some(said)) && said != sent
      && Follow(Project(frames, s)) == Some(Live(sent))
    case EndWithOpenStream(s) => f.Fin? && LeftLive(frames, s)
  }

  lemma ViolationSays(frames: seq<Emitted>, f: Emitted)
    requires Unfinished(frames) && Accepted(frames) && !Accepted(frames + [f])
    ensures Says(frames, f, After(frames + [f]).error)
  {
    AcceptedViews(frames);
    var e := After(frames).value;
    AfterSnoc(frames, f);
    hide After;
    if f.OfStream? {
      assert Follow(Project(frames, f.stream)) == Some(Of(e, f.stream));
    }
    if f.Fin? && e.open != [] {
      assert Follow(Project(frames, e.open[0].stream)) == Some(Of(e, e.open[0].stream));
    }
    hide Follow, Project;
  }

  /** Wherever a request is cut, an ERR there is in order. */
  lemma {:induction false} CutAccepted(frames: seq<Emitted>, k: nat)
    requires Unfinished(frames) && Accepted(frames) && k <= |frames|
    ensures Accepted(frames[..k] + [Failed])
  {
    if k == |frames| {
      assert frames[..k] == frames;
      TerminalIff(frames);
    } else {
      CutAccepted(frames[..|frames| - 1], k);
      assert frames[..|frames| - 1][..k] == frames[..k];
    }
  }

  /** Nothing may follow a terminal. */
  lemma NothingAfterTerminal(frames: seq<Emitted>, last: Emitted, f: Emitted)
    requires last.Fin? || last.Failed?
    ensures !Accepted(frames + [last] + [f])
    ensures Accepted(frames + [last]) ==> After(frames + [last] + [f]) == Err(AfterEnd)
  {
    AfterSnoc(frames, last);
    AfterSnoc(frames + [last], f);
  }
}
