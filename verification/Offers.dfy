/**
  The rules against a channel that may refuse frames: a sender that goes on after a
  refusal keeps them exactly if nothing of the stream is taken behind what was lost.
*/
module Offers {
  import opened Emission
  import opened OutputStream
  import opened Wrappers

  // ---- One stream ------------------------------------------------------------------------

  // A frame given to the writer, and whether the channel takes it.
  datatype Try = Try(frame: StreamFrame, taken: bool)

  function TakenOf(tries: seq<Try>): seq<StreamFrame> {
    if tries == [] then []
    else
      var last := tries[|tries| - 1];
      TakenOf(tries[..|tries| - 1]) + if last.taken then [last.frame] else []
  }

  datatype Tally = Nothing | Begun(chunks: nat, ended: bool)

  function TallyStep(t: Tally, f: StreamFrame): Option<Tally> {
    match f
    case StreamStart(_, _) => if t.Nothing? then Some(Begun(0, false)) else None
    case Chunk(index, _) => if t.Begun? && index == t.chunks then Some(t.(chunks := index + 1)) else None
    case StreamEnd(count) =>
      if t.Begun? && !t.ended && (count.None? || count.value == t.chunks) then Some(t.(ended := true)) else None
  }

  /**
    What an output stream tries to send, whatever its handler calls: one start, then
    chunks numbered from 0, and at most one end, which counts the chunks before it;
    chunks may come behind it.
  */
  function TallyOf(tries: seq<Try>): Option<Tally> {
    if tries == [] then Some(Nothing)
    else
      match TallyOf(tries[..|tries| - 1])
      case None => None
      case Some(t) => TallyStep(t, tries[|tries| - 1].frame)
  }

  predicate StartTaken(a: Try) {
    a.taken && a.frame.StreamStart?
  }

  predicate StartLost(a: Try) {
    !a.taken && a.frame.StreamStart?
  }

  predicate ChunkLost(a: Try) {
    !a.taken && a.frame.Chunk?
  }

  predicate EndTaken(a: Try) {
    a.taken && a.frame.StreamEnd?
  }

  /**
    The later try breaks the rules by being taken: behind a start or a chunk that was
    refused, except that an end without a count may follow a lost chunk, or behind
    the end.
  */
  predicate Breaks(a: Try, b: Try) {
    b.taken && (StartLost(a) || (ChunkLost(a) && b.frame != StreamEnd(None)) || EndTaken(a))
  }

  predicate InOrder(tries: seq<Try>) {
    forall i, j :: 0 <= i < j < |tries| ==> !Breaks(tries[i], tries[j])
  }

  /** The stream's start was taken and no end of it. */
  ghost predicate LeftOpen(tries: seq<Try>) {
    (exists a :: a in tries && StartTaken(a)) && forall a :: a in tries ==> !EndTaken(a)
  }

  /** Where the taken frames leave the stream, read off what was tried. */
  ghost predicate Stands(tries: seq<Try>, v: View)
    requires TallyOf(tries).Some?
  {
    match TallyOf(tries).value
    case Nothing => tries == [] && v.Unseen?
    case Begun(n, _) =>
      (v.Unseen? <==> exists a :: a in tries && StartLost(a))
      && (v.Unseen? <==> forall a :: a in tries ==> !StartTaken(a))
      && (v.Over? <==> exists a :: a in tries && EndTaken(a))
      && (v.Live? ==> v.chunks <= n && (v.chunks == n <==> forall a :: a in tries ==> !ChunkLost(a)))
  }

  lemma InOrderSnoc(before: seq<Try>, b: Try)
    ensures InOrder(before + [b]) <==> InOrder(before) && forall a :: a in before ==> !Breaks(a, b)
  {
    var all := before + [b];
    assert all[|before|] == b && forall i :: 0 <= i < |before| ==> all[i] == before[i];
  }

  lemma StandsSnoc(before: seq<Try>, b: Try, v: View)
    requires TallyOf(before).Some? && TallyStep(TallyOf(before).value, b.frame).Some? && Stands(before, v)
    requires TallyOf(before + [b]) == TallyStep(TallyOf(before).value, b.frame)
    ensures b.taken ==> (StreamStep(v, b.frame).Some? <==> forall a :: a in before ==> !Breaks(a, b))
    ensures !b.taken ==> Stands(before + [b], v)
    ensures b.taken && StreamStep(v, b.frame).Some? ==> Stands(before + [b], StreamStep(v, b.frame).value)
  {
    hide TallyOf;
    var all := before + [b];
    assert forall a :: a in all <==> a in before || a == b;
    assert b in all;
  }

  /** One stream, exactly: the frames taken keep its rules if and only if none was taken that breaks them. */
  lemma {:induction false} TriesIff(tries: seq<Try>)
    requires TallyOf(tries).Some?
    ensures Follow(TakenOf(tries)).Some? <==> InOrder(tries)
    ensures InOrder(tries) ==> Stands(tries, Follow(TakenOf(tries)).value)
  {
    if tries != [] {
      var before, b := tries[..|tries| - 1], tries[|tries| - 1];
      TriesIff(before);
      assert tries == before + [b];
      InOrderSnoc(before, b);
      var was := TakenOf(before);
      assert TakenOf(tries) == was + if b.taken then [b.frame] else [];
      assert was + [] == was;
      assert (was + [b.frame])[..|was|] == was;
      hide InOrder, Stands, TakenOf, Breaks;
      if Follow(was).Some? {
        StandsSnoc(before, b, Follow(was).value);
      }
      assert !b.taken ==> forall a :: a in before ==> !Breaks(a, b) by {
        NeverBreaks(b);
      }
    }
  }

  lemma NeverBreaks(b: Try)
    ensures !b.taken ==> forall a :: !Breaks(a, b)
  {
  }

  lemma LeftOpenIff(tries: seq<Try>)
    requires TallyOf(tries).Some? && InOrder(tries)
    ensures Follow(TakenOf(tries)).Some? && (Follow(TakenOf(tries)).value.Live? <==> LeftOpen(tries))
  {
    TriesIff(tries);
  }

  // ---- A request's streams -----------------------------------------------------------------

  datatype Offer = Offer(says: Emitted, taken: bool)

  /** What the channel takes. */
  function Accepts(offers: seq<Offer>): seq<Emitted> {
    if offers == [] then []
    else
      var last := offers[|offers| - 1];
      Accepts(offers[..|offers| - 1]) + if last.taken then [last.says] else []
  }

  /** One stream's tries. */
  function TriesOf(offers: seq<Offer>, s: Stream): seq<Try> {
    if offers == [] then []
    else
      var last := offers[|offers| - 1];
      TriesOf(offers[..|offers| - 1], s)
      + if last.says.OfStream? && last.says.stream == s then [Try(last.says.frame, last.taken)] else []
  }

  /** No terminal among what is taken. */
  predicate NoTerminal(offers: seq<Offer>) {
    forall i :: 0 <= i < |offers| && offers[i].taken ==> offers[i].says.OfStream? || offers[i].says.Other?
  }

  lemma TakenOfSnoc(tries: seq<Try>, t: Try)
    ensures TakenOf(tries + [t]) == TakenOf(tries) + if t.taken then [t.frame] else []
  {
    assert (tries + [t])[..|tries|] == tries;
  }

  /** Taking and looking at one stream commute. */
  lemma {:induction false} TakenByStream(offers: seq<Offer>, s: Stream)
    ensures Project(Accepts(offers), s) == TakenOf(TriesOf(offers, s))
  {
    if offers != [] {
      var before, last := offers[..|offers| - 1], offers[|offers| - 1];
      TakenByStream(before, s);
      if last.taken {
        ProjectSnoc(Accepts(before), last.says, s);
      }
      if last.says.OfStream? && last.says.stream == s {
        TakenOfSnoc(TriesOf(before, s), Try(last.says.frame, last.taken));
      }
      hide Project, TakenOf;
      assert Accepts(before) + [] == Accepts(before) && TriesOf(before, s) + [] == TriesOf(before, s);
      assert TakenOf(TriesOf(before, s)) + [] == TakenOf(TriesOf(before, s));
    }
  }

  lemma {:induction false} AcceptsUnfinished(offers: seq<Offer>)
    requires NoTerminal(offers)
    ensures Unfinished(Accepts(offers))
  {
    if offers != [] {
      AcceptsUnfinished(offers[..|offers| - 1]);
    }
  }

  ghost predicate Tallied(offers: seq<Offer>) {
    NoTerminal(offers) && forall s: Stream :: TallyOf(TriesOf(offers, s)).Some?
  }

  ghost predicate AllInOrder(offers: seq<Offer>) {
    forall s: Stream :: InOrder(TriesOf(offers, s))
  }

  ghost predicate NoneLeftOpen(offers: seq<Offer>) {
    forall s: Stream :: !LeftOpen(TriesOf(offers, s))
  }

  lemma StreamIff(offers: seq<Offer>, s: Stream)
    requires TallyOf(TriesOf(offers, s)).Some?
    ensures Follow(Project(Accepts(offers), s)).Some? <==> InOrder(TriesOf(offers, s))
    ensures InOrder(TriesOf(offers, s)) ==> (LeftLive(Accepts(offers), s) <==> LeftOpen(TriesOf(offers, s)))
  {
    TakenByStream(offers, s);
    TriesIff(TriesOf(offers, s));
    if InOrder(TriesOf(offers, s)) {
      LeftOpenIff(TriesOf(offers, s));
    }
  }

  /**
    A request's frames against the rules, exactly, whatever the channel refuses.
    Before its terminal, and with an ERR behind, they are in order if and only if no
    frame of a stream is taken that breaks its stream; with an END behind, if and only
    if also no stream is left open.
  */
  lemma AcceptsIff(offers: seq<Offer>)
    requires Tallied(offers)
    ensures Accepted(Accepts(offers)) <==> AllInOrder(offers)
    ensures Accepted(Accepts(offers) + [Failed]) <==> AllInOrder(offers)
    ensures Accepted(Accepts(offers) + [Fin])
            <==> AllInOrder(offers) && NoneLeftOpen(offers)
  {
    var frames := Accepts(offers);
    AcceptsUnfinished(offers);
    AllInOrderIff(offers);
    hide Follow, InOrder, LeftOpen, LeftLive, TallyOf, Project, TriesOf, Accepts;
    hide AllInOrder, NoneLeftOpen, Tallied, Accepted;
    AcceptedIff(frames);
    TerminalBehind(frames);
    if AllInOrder(offers) {
      NoneOpenIff(offers);
    }
  }

  lemma AllInOrderIff(offers: seq<Offer>)
    requires Tallied(offers)
    ensures AllInOrder(offers) <==> forall s: Stream :: Follow(Project(Accepts(offers), s)).Some?
  {
    if s: Stream :| Follow(Project(Accepts(offers), s)).None? {
      StreamIff(offers, s);
    }
    if s: Stream :| !InOrder(TriesOf(offers, s)) {
      StreamIff(offers, s);
      assert Follow(Project(Accepts(offers), s)).None?;
    }
  }

  lemma NoneOpenIff(offers: seq<Offer>)
    requires Tallied(offers) && AllInOrder(offers)
    ensures (forall s: Stream :: !LeftLive(Accepts(offers), s)) <==> NoneLeftOpen(offers)
  {
    if s: Stream :| LeftLive(Accepts(offers), s) {
      StreamIff(offers, s);
    }
    if s: Stream :| LeftOpen(TriesOf(offers, s)) {
      StreamIff(offers, s);
      assert LeftLive(Accepts(offers), s);
    }
  }

  lemma TerminalBehind(frames: seq<Emitted>)
    requires Unfinished(frames)
    ensures Accepted(frames + [Failed]) <==> Accepted(frames)
    ensures Accepted(frames + [Fin]) <==> Accepted(frames) && forall s: Stream :: !LeftLive(frames, s)
  {
    AfterSnoc(frames, Failed);
    AfterSnoc(frames, Fin);
    if Accepted(frames) {
      TerminalIff(frames);
    }
  }
}
