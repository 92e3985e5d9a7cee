/**
  A request's outputs from first write to terminal, against the emission rules.

  Each output runs its handler's calls on its own stream; how the streams' frames
  interleave is left open, because the rules do not see it.  Any of them may be
  refused by the channel, and a handler may go on after that, as the runtime does
  when it finishes the outputs.
*/
module RequestOutput {
  import opened CborCodec
  import opened Emission
  import opened Offers
  import opened Wrappers
  import O = OutputStream
  import StreamRuns

  // ---- One output ------------------------------------------------------------------------

  datatype Output = Output(required: bool, isSequence: bool, ops: seq<O.Op>, credit: Option<nat>, refused: set<nat>)

  predicate Writes(op: O.Op) {
    op.Write? || op.EmitCbor? || op.EmitListItem?
  }

  predicate NoWriteAfterClose(ops: seq<O.Op>) {
    forall i, j :: 0 <= i < j < |ops| && ops[i].Close? ==> !Writes(ops[j])
  }

  predicate HasClose(ops: seq<O.Op>) {
    exists i :: 0 <= i < |ops| && ops[i].Close?
  }

  predicate HasStart(ops: seq<O.Op>) {
    exists i :: 0 <= i < |ops| && ops[i].Start?
  }

  /** The stream was closed before it was ever started. */
  predicate ClosedFirst(ops: seq<O.Op>) {
    exists i :: 0 <= i < |ops| && ops[i].Close? && !HasStart(ops[..i])
  }

  /** What the handler's return does to an output. */
  function Finish(o: O.Out, required: bool, isSequence: bool, maxChunk: nat): O.Out
    requires maxChunk > 0
  {
    if o.mode.Some? then O.DoClose(o, maxChunk).out
    else if required then
      var started := O.DoStart(o, isSequence, false);
      if started.err.Some? then started.out else O.DoClose(started.out, maxChunk).out
    else o
  }

  // ---- What a stream hands over --------------------------------------------------------------

  function Tries(o: O.Out): (tries: seq<Try>)
    ensures |tries| == |o.handed|
  {
    seq(|o.handed|, i requires 0 <= i < |o.handed| => Try(o.handed[i], i !in o.refused))
  }

  /** The wire is what was taken of it, and the counters are those of what was tried. */
  ghost predicate Sound(o: O.Out) {
    o.wire == TakenOf(Tries(o)) &&
    match TallyOf(Tries(o))
    case None => false
    case Some(Nothing) => o.mode.None? && o.buf == [] && o.sent == 0
    case Some(Begun(n, ended)) => o.mode.Some? && n == o.sent && (ended ==> o.closed)
  }

  /** An end of it was handed over, whether taken or not. */
  predicate EndTried(o: O.Out) {
    var t := TallyOf(Tries(o));
    t.Some? && t.value.Begun? && t.value.ended
  }

  /** Nothing limits it: its gate never closes and the channel takes everything. */
  predicate Unlimited(o: O.Out) {
    o.credit.None? && o.refused == {}
  }

  lemma HandTries(o: O.Out, f: O.StreamFrame)
    ensures var out, t := O.Hand(o, f).out, Try(f, |o.handed| !in o.refused);
            Tries(out) == Tries(o) + [t] && Prefix(Tries(o), Tries(out))
            && TallyOf(Tries(out)) == (if TallyOf(Tries(o)).None? then None else TallyStep(TallyOf(Tries(o)).value, f))
            && (o.wire == TakenOf(Tries(o)) ==> out.wire == TakenOf(Tries(out)))
  {
    var out, t := O.Hand(o, f).out, Try(f, |o.handed| !in o.refused);
    assert Tries(out) == Tries(o) + [t];
    assert (Tries(o) + [t])[..|o.handed|] == Tries(o);
    TakenOfSnoc(Tries(o), t);
    assert o.wire + [] == o.wire;
  }

  lemma HandIs(o: O.Out, f: O.StreamFrame)
    ensures var s := O.Hand(o, f);
            s.out == o.(handed := s.out.handed, wire := s.out.wire) && (o.refused == {} ==> s.err.None?)
  {
  }

  /** Chunks go out, if any; nothing else about the stream changes but what it holds back. */
  ghost predicate Steady(o: O.Out, out: O.Out) {
    Sound(out) && Prefix(Tries(o), Tries(out)) && EndTried(out) == EndTried(o)
    && out.mode == o.mode && out.closed == o.closed && out.refused == o.refused
    && (o.credit.None? <==> out.credit.None?)
  }

  lemma SoundEmit(o: O.Out, body: O.Body)
    requires Sound(o) && o.mode.Some?
    ensures Steady(o, O.Emit(o, body).out) && O.Emit(o, body).out.buf == o.buf
    ensures Unlimited(o) ==> O.Emit(o, body).err.None?
  {
    if o.credit != Some(0) {
      var credit := if o.credit.Some? then Some(o.credit.value - 1) else None;
      var spent := o.(credit := credit, sent := o.sent + 1);
      SameTries(o, spent);
      SoundChunk(o, spent, O.Chunk(o.sent, body));
      hide TallyOf, TakenOf, Tries, Sound, EndTried, Prefix;
    }
  }

  lemma SoundChunk(o: O.Out, spent: O.Out, f: O.StreamFrame)
    requires Sound(o) && o.mode.Some? && Tries(spent) == Tries(o)
    requires f.Chunk? && f.index == o.sent && spent.sent == o.sent + 1 && spent.mode == o.mode
    requires spent.closed == o.closed && spent.wire == o.wire
    ensures Sound(O.Hand(spent, f).out) && Prefix(Tries(o), Tries(O.Hand(spent, f).out))
    ensures EndTried(O.Hand(spent, f).out) == EndTried(o)
  {
    hide TallyOf, TakenOf, Tries, Prefix, O.Hand;
    HandIs(spent, f);
    HandTries(spent, f);
  }

  lemma {:induction false} SoundEmits(o: O.Out, bodies: seq<O.Body>)
    requires Sound(o) && o.mode.Some?
    ensures Steady(o, O.Emits(o, bodies).out) && O.Emits(o, bodies).out.buf == o.buf
    ensures Unlimited(o) ==> O.Emits(o, bodies).err.None?
    decreases |bodies|
  {
    if bodies != [] {
      hide Sound, Tries, O.Emit, EndTried;
      SoundEmit(o, bodies[0]);
      if O.Emit(o, bodies[0]).err.None? {
        SoundEmits(O.Emit(o, bodies[0]).out, bodies[1..]);
      }
    }
  }

  lemma SameTries(o: O.Out, p: O.Out)
    requires p.handed == o.handed && p.refused == o.refused
    ensures Tries(p) == Tries(o)
  {
  }

  lemma SoundFlush(o: O.Out, maxChunk: nat)
    requires maxChunk > 0 && Sound(o)
    ensures Steady(o, O.DoFlush(o, maxChunk).out) && O.DoFlush(o, maxChunk).out.buf == []
    ensures Unlimited(o) ==> O.DoFlush(o, maxChunk).err.None?
    ensures o.buf == [] ==> O.DoFlush(o, maxChunk).out == o
  {
    if o.buf != [] {
      var emptied := o.(buf := [], oldest := None);
      SameTries(o, emptied);
      SoundEmits(emptied, O.ByteBodies(O.Split(o.buf, maxChunk)));
      hide TallyOf, Tries;
    }
  }

  lemma SoundClose(o: O.Out, maxChunk: nat)
    requires maxChunk > 0 && Sound(o)
    ensures var out := O.DoClose(o, maxChunk).out;
            Sound(out) && Prefix(Tries(o), Tries(out)) && out.mode == o.mode && out.closed && out.refused == o.refused
            && (o.closed || o.mode.None? ==> Tries(out) == Tries(o))
            && (!o.closed && o.mode.Some? ==> out.buf == [])
            && (o.credit.None? <==> out.credit.None?)
            && (Unlimited(o) && !o.closed && o.mode.Some? ==> EndTried(out))
            && (!o.closed ==> EndLast(Tries(out)))
  {
    var marked := o.(closed := true);
    SameTries(o, marked);
    if o.closed || o.mode.None? {
      if !o.closed {
        NoEndYet(o);
      }
    } else {
      SoundFlush(marked, maxChunk);
      hide TallyOf, Tries, TakenOf, EndLast;
      var flushed := O.DoFlush(marked, maxChunk);
      NoEndYet(flushed.out);
      SoundEnd(flushed.out, if o.unbounded then None else Some(flushed.out.sent));
      hide Sound, EndTried, O.DoFlush, O.Hand;
    }
  }

  lemma SoundEnd(o: O.Out, count: Option<nat>)
    requires Sound(o) && o.mode.Some? && o.closed && !EndTried(o) && (count.None? || count.value == o.sent)
    ensures var out := O.Hand(o, O.StreamEnd(count)).out;
            Sound(out) && EndTried(out) && Prefix(Tries(o), Tries(out)) && out.mode == o.mode && out.closed
            && out.refused == o.refused && out.credit == o.credit && out.buf == o.buf && EndLast(Tries(out))
  {
    hide TallyOf, Tries, TakenOf, O.Hand;
    HandIs(o, O.StreamEnd(count));
    HandTries(o, O.StreamEnd(count));
    NoEndYet(o);
  }

  /** No try but the last is an end. */
  predicate EndLast(tries: seq<Try>) {
    forall i :: 0 <= i < |tries| - 1 ==> !tries[i].frame.StreamEnd?
  }

  /** A stream that began handed a start over, and one that ended an end. */
  lemma {:induction false} TallyMeans(tries: seq<Try>)
    requires TallyOf(tries).Some?
    ensures TallyOf(tries).value.Nothing? ==> tries == []
    ensures TallyOf(tries).value.Begun? ==> exists a :: a in tries && a.frame.StreamStart?
    ensures TallyOf(tries).value.Begun? ==>
              (TallyOf(tries).value.ended <==> exists a :: a in tries && a.frame.StreamEnd?)
  {
    if tries != [] {
      var before, last := tries[..|tries| - 1], tries[|tries| - 1];
      TallyMeans(before);
      assert tries == before + [last];
      assert forall a :: a in tries <==> a in before || a == last;
      assert last in tries;
    }
  }

  lemma NoEndYet(o: O.Out)
    requires Sound(o) && !EndTried(o)
    ensures forall a :: a in Tries(o) ==> !a.frame.StreamEnd?
    ensures EndLast(Tries(o))
  {
    TallyMeans(Tries(o));
  }

  lemma SoundStart(o: O.Out, isSequence: bool, unbounded: bool)
    requires Sound(o)
    ensures var s := O.DoStart(o, isSequence, unbounded);
            Sound(s.out) && Prefix(Tries(o), Tries(s.out)) && s.out.mode.Some? && s.out.closed == o.closed
            && s.out.credit == o.credit && s.out.refused == o.refused && s.out.buf == o.buf
            && (o.mode.Some? ==> s.out == o) && (o.mode.None? ==> !EndTried(s.out))
            && (Unlimited(o) && o.mode.None? ==> s.err.None?)
  {
    hide TallyOf, Tries, TakenOf, O.Hand;
    if o.mode.None? {
      var begun := o.(mode := Some(isSequence), unbounded := unbounded);
      SameTries(o, begun);
      HandIs(begun, O.StreamStart(isSequence, unbounded));
      HandTries(begun, O.StreamStart(isSequence, unbounded));
    }
  }

  lemma SoundBytes(o: O.Out, data: seq<byte>, clock: O.Clock, maxChunk: nat)
    requires maxChunk > 0 && Sound(o) && o.mode.Some?
    ensures Steady(o, O.DoBytes(o, data, clock, maxChunk).out)
  {
    if data != [] {
      var (after, due) := O.Coalesce(o, data, clock);
      SameTries(o, after);
      if due.Some? {
        SoundEmits(after, O.ByteBodies(O.Split(due.value, maxChunk)));
      }
      hide TallyOf, Tries;
    }
  }

  lemma SoundValue(o: O.Out, v: Cbor, maxChunk: nat)
    requires maxChunk > 0 && Sound(o) && o.mode.Some?
    ensures Steady(o, O.DoValue(o, v, maxChunk).out)
  {
    hide Sound, EndTried, Tries, O.DoFlush, O.SplitText, O.Emits;
    SoundFlush(o, maxChunk);
    var flushed := O.DoFlush(o, maxChunk);
    match v
    case Text(b) => SoundEmits(flushed.out, O.TextBodies(O.SplitText(b, maxChunk).pieces));
    case Array(xs) => SoundEmits(flushed.out, O.ValueBodies(xs));
    case _ => SoundEmits(flushed.out, [O.Whole(v)]);
  }

  lemma SoundWrite(o: O.Out, op: O.Op, maxChunk: nat)
    requires maxChunk > 0 && O.OpOk(op) && Sound(o) && Writes(op)
    ensures Steady(o, O.Do(o, op, maxChunk).out)
  {
    if o.mode.Some? {
      match op
      case Write(data, clock) => SoundBytes(o, data, clock, maxChunk);
      case EmitCbor(v, clock) =>
        if v.Bytes? {
          SoundBytes(o, v.b, clock, maxChunk);
        } else {
          SoundValue(o, v, maxChunk);
        }
      case EmitListItem(item, meta) => SoundEmits(o, O.FragmentBodies(O.Split(Encode(item), maxChunk), meta));
    }
  }

  lemma SoundDo(o: O.Out, op: O.Op, maxChunk: nat)
    requires maxChunk > 0 && O.OpOk(op) && Sound(o)
    ensures Sound(O.Do(o, op, maxChunk).out)
  {
    match op
    case Start(isSequence, unbounded) => SoundStart(o, isSequence, unbounded);
    case Close => SoundClose(o, maxChunk);
    case Flush => SoundFlush(o, maxChunk);
    case _ => SoundWrite(o, op, maxChunk);
  }

  lemma SoundFinish(o: O.Out, required: bool, isSequence: bool, maxChunk: nat)
    requires maxChunk > 0 && Sound(o)
    ensures Sound(Finish(o, required, isSequence, maxChunk))
    ensures Prefix(Tries(o), Tries(Finish(o, required, isSequence, maxChunk)))
  {
    if o.mode.Some? {
      SoundClose(o, maxChunk);
    } else if required {
      SoundStart(o, isSequence, false);
      var started := O.DoStart(o, isSequence, false).out;
      SoundClose(started, maxChunk);
    }
  }

  /** Whatever a handler calls, also behind a close or a failure. */
  lemma {:induction false} RunSound(ops: seq<O.Op>, credit: Option<nat>, refused: set<nat>, maxChunk: nat)
    requires maxChunk > 0 && StreamRuns.OpsOk(ops)
    ensures Sound(StreamRuns.RunOn(O.Opened(credit, refused), ops, maxChunk))
  {
    if ops != [] {
      RunSound(ops[..|ops| - 1], credit, refused, maxChunk);
      SoundDo(StreamRuns.RunOn(O.Opened(credit, refused), ops[..|ops| - 1], maxChunk), ops[|ops| - 1], maxChunk);
    }
  }

  // ---- The request ---------------------------------------------------------------------------

  predicate OutputsOk(outputs: seq<Output>) {
    forall i :: 0 <= i < |outputs| ==> StreamRuns.OpsOk(outputs[i].ops)
  }

  /** What an output has sent when its handler's calls are done. */
  function Written(output: Output, maxChunk: nat): O.Out
    requires maxChunk > 0 && StreamRuns.OpsOk(output.ops)
  {
    StreamRuns.RunOn(O.Opened(output.credit, output.refused), output.ops, maxChunk)
  }

  /** And once the handler has returned successfully. */
  function Finished(output: Output, maxChunk: nat): O.Out
    requires maxChunk > 0 && StreamRuns.OpsOk(output.ops)
  {
    Finish(Written(output, maxChunk), output.required, output.isSequence, maxChunk)
  }

  lemma FinishedSound(output: Output, maxChunk: nat)
    requires maxChunk > 0 && StreamRuns.OpsOk(output.ops)
    ensures Sound(Finished(output, maxChunk))
    ensures Prefix(Tries(Written(output, maxChunk)), Tries(Finished(output, maxChunk)))
  {
    RunSound(output.ops, output.credit, output.refused, maxChunk);
    SoundFinish(Written(output, maxChunk), output.required, output.isSequence, maxChunk);
  }

  /** All a stream of the request hands over, up to the end of its finishing. */
  function TriedBy(outputs: seq<Output>, s: Stream, maxChunk: nat): seq<Try>
    requires maxChunk > 0 && OutputsOk(outputs)
  {
    if s < |outputs| then Tries(Finished(outputs[s], maxChunk)) else []
  }

  /**
    What a request hands over up to some moment, while its handler runs or while its
    outputs are finished: some interleaving of the first tries of each stream, with
    frames of no stream anywhere between.
  */
  ghost predicate HandedOver(offers: seq<Offer>, outputs: seq<Output>, maxChunk: nat)
    requires maxChunk > 0 && OutputsOk(outputs)
  {
    NoTerminal(offers) && forall s: Stream :: Prefix(TriesOf(offers, s), TriedBy(outputs, s, maxChunk))
  }

  lemma {:induction false} TallyPrefix(tries: seq<Try>, k: nat)
    requires k <= |tries| && TallyOf(tries).Some?
    ensures TallyOf(tries[..k]).Some?
  {
    if k == |tries| {
      assert tries[..k] == tries;
    } else {
      TallyPrefix(tries[..|tries| - 1], k);
      assert tries[..|tries| - 1][..k] == tries[..k];
    }
  }

  lemma HandedTallied(offers: seq<Offer>, outputs: seq<Output>, maxChunk: nat)
    requires maxChunk > 0 && OutputsOk(outputs) && HandedOver(offers, outputs, maxChunk)
    ensures Tallied(offers)
  {
    forall s: Stream
      ensures TallyOf(TriesOf(offers, s)).Some?
    {
      assert Prefix(TriesOf(offers, s), TriedBy(outputs, s, maxChunk));
      if s < |outputs| {
        FinishedSound(outputs[s], maxChunk);
        TallyPrefix(Tries(Finished(outputs[s], maxChunk)), |TriesOf(offers, s)|);
      }
    }
  }

  /**
    A request against the rules, exactly, whatever its handler does, wherever it is
    cut, whenever its credit gates close and whatever the channel refuses.  It may end
    in ERR if and only if the channel takes no frame of a stream behind a start or a
    chunk of it that was refused (a countless end may follow a lost chunk) or behind
    its end; and in END if and only if also each stream whose start was taken had its
    end taken.
  */
  lemma RulesKeptIff(outputs: seq<Output>, offers: seq<Offer>, maxChunk: nat)
    requires maxChunk > 0 && OutputsOk(outputs) && HandedOver(offers, outputs, maxChunk)
    ensures Accepted(Accepts(offers)) <==> AllInOrder(offers)
    ensures Accepted(Accepts(offers) + [Failed]) <==> AllInOrder(offers)
    ensures Accepted(Accepts(offers) + [Fin])
            <==> AllInOrder(offers) && NoneLeftOpen(offers)
  {
    HandedTallied(offers, outputs, maxChunk);
    hide Tallied, AllInOrder, NoneLeftOpen, Accepted;
    AcceptsIff(offers);
  }

  // ---- A channel that takes everything -----------------------------------------------------------

  /** Where a stream's calls leave it, read off the calls alone. */
  ghost predicate Summary(o: O.Out, ops: seq<O.Op>) {
    Sound(o) && o.refused == {} && (o.closed <==> HasClose(ops)) && (o.mode.Some? <==> HasStart(ops))
    && (o.closed ==> o.buf == []) && EndLast(Tries(o))
    && (o.credit.None? && HasStart(ops) ==> (EndTried(o) <==> HasClose(ops) && !ClosedFirst(ops)))
  }

  lemma Snoc(ops: seq<O.Op>, op: O.Op)
    ensures HasClose(ops + [op]) <==> HasClose(ops) || op.Close?
    ensures HasStart(ops + [op]) <==> HasStart(ops) || op.Start?
    ensures ClosedFirst(ops + [op]) <==> ClosedFirst(ops) || (op.Close? && !HasStart(ops))
    ensures HasClose(ops) && !HasStart(ops) ==> ClosedFirst(ops)
    ensures ClosedFirst(ops) ==> HasClose(ops)
  {
    var all := ops + [op];
    assert all[|ops|] == op && all[..|ops|] == ops;
    assert forall i :: 0 <= i < |ops| ==> all[i] == ops[i] && all[..i] == ops[..i];
    if i :| 0 <= i < |ops| && ops[i].Close? {
      assert all[i].Close?;
    }
    if i :| 0 <= i < |ops| && ops[i].Start? {
      assert all[i].Start?;
    }
    if i :| 0 <= i < |ops| && ops[i].Close? && !HasStart(ops[..i]) {
      assert all[i].Close? && !HasStart(all[..i]);
    }
    if HasClose(ops) && !HasStart(ops) {
      var i :| 0 <= i < |ops| && ops[i].Close?;
      assert forall j :: 0 <= j < i ==> ops[..i][j] == ops[j];
    }
  }

  lemma NothingYet(credit: Option<nat>)
    ensures Summary(O.Opened(credit, {}), [])
  {
  }

  lemma SummarySnoc(o: O.Out, ops: seq<O.Op>, op: O.Op, maxChunk: nat)
    requires maxChunk > 0 && O.OpOk(op) && Summary(o, ops) && (HasClose(ops) ==> !Writes(op))
    ensures Summary(O.Do(o, op, maxChunk).out, ops + [op])
    ensures o.credit.None? ==> O.Do(o, op, maxChunk).out.credit.None?
  {
    Snoc(ops, op);
    hide TallyOf, Tries, HasClose, HasStart, ClosedFirst, EndLast;
    var out := O.Do(o, op, maxChunk).out;
    match op
    case Start(isSequence, unbounded) =>
      SoundStart(o, isSequence, unbounded);
      if o.mode.None? {
        NoEndYet(out);
      }
    case Close => SoundClose(o, maxChunk);
    case Flush =>
      SoundFlush(o, maxChunk);
      if !EndTried(out) {
        NoEndYet(out);
      }
    case _ =>
      SoundWrite(o, op, maxChunk);
      NoEndYet(out);
  }

  lemma {:induction false} RunSummary(ops: seq<O.Op>, credit: Option<nat>, maxChunk: nat)
    requires maxChunk > 0 && StreamRuns.OpsOk(ops) && NoWriteAfterClose(ops)
    ensures var o := StreamRuns.RunOn(O.Opened(credit, {}), ops, maxChunk);
            Summary(o, ops) && (credit.None? ==> o.credit.None?)
  {
    if ops == [] {
      NothingYet(credit);
    } else {
      var before, op := ops[..|ops| - 1], ops[|ops| - 1];
      RunSummary(before, credit, maxChunk);
      assert ops == before + [op];
      hide Summary;
      SummarySnoc(StreamRuns.RunOn(O.Opened(credit, {}), before, maxChunk), before, op, maxChunk);
    }
  }

  /** Closed before it was started, and then started: by the handler, or because it is required. */
  predicate ClosedTooEarly(output: Output) {
    ClosedFirst(output.ops) && (HasStart(output.ops) || output.required)
  }

  lemma FinishedSummary(output: Output, maxChunk: nat)
    requires maxChunk > 0 && StreamRuns.OpsOk(output.ops) && NoWriteAfterClose(output.ops) && output.refused == {}
    ensures var o := Finished(output, maxChunk);
            Sound(o) && o.refused == {} && EndLast(Tries(o))
            && (output.credit.None? ==> (o.mode.Some? && !EndTried(o) <==> ClosedTooEarly(output)))
  {
    var o := Written(output, maxChunk);
    RunSummary(output.ops, output.credit, maxChunk);
    hide TallyOf, Tries, HasClose, HasStart, ClosedFirst, EndLast;
    if output.ops != [] {
      Snoc(output.ops, output.ops[0]);
    }
    if o.mode.Some? {
      SoundClose(o, maxChunk);
    } else if output.required {
      SoundStart(o, output.isSequence, false);
      var started := O.DoStart(o, output.isSequence, false);
      SoundClose(started.out, maxChunk);
      NoEndYet(started.out);
    }
  }

  /** The channel takes all the request's frames, and no stream is written to after it was closed. */
  predicate Undisturbed(outputs: seq<Output>) {
    forall i :: 0 <= i < |outputs| ==> outputs[i].refused == {} && NoWriteAfterClose(outputs[i].ops)
  }

  lemma AllTaken(o: O.Out)
    requires Sound(o) && o.refused == {} && EndLast(Tries(o))
    ensures InOrder(Tries(o)) && (LeftOpen(Tries(o)) <==> o.mode.Some? && !EndTried(o))
  {
    assert forall a :: a in Tries(o) ==> a.taken;
    TallyMeans(Tries(o));
    hide TallyOf, Tries;
    if o.mode.Some? && !EndTried(o) {
      var a :| a in Tries(o) && a.frame.StreamStart?;
      assert StartTaken(a);
    }
    if EndTried(o) {
      var a :| a in Tries(o) && a.frame.StreamEnd?;
      assert EndTaken(a);
    }
  }

  lemma InOrderPrefix(a: seq<Try>, b: seq<Try>)
    requires Prefix(a, b) && InOrder(b)
    ensures InOrder(a)
  {
    assert forall i :: 0 <= i < |a| ==> a[i] == b[i];
  }

  /** Such a request may end in ERR wherever it is cut. */
  lemma AnyCutIsAccepted(outputs: seq<Output>, offers: seq<Offer>, maxChunk: nat)
    requires maxChunk > 0 && OutputsOk(outputs) && HandedOver(offers, outputs, maxChunk) && Undisturbed(outputs)
    ensures Accepted(Accepts(offers)) && Accepted(Accepts(offers) + [Failed])
  {
    forall s: Stream
      ensures InOrder(TriesOf(offers, s))
    {
      hide InOrder, Tries, TriesOf;
      assert Prefix(TriesOf(offers, s), TriedBy(outputs, s, maxChunk));
      if s < |outputs| {
        FinishedSummary(outputs[s], maxChunk);
        AllTaken(Finished(outputs[s], maxChunk));
      } else {
        NoTries();
      }
      InOrderPrefix(TriesOf(offers, s), TriedBy(outputs, s, maxChunk));
    }
    hide InOrder, HandedOver, Accepted;
    RulesKeptIff(outputs, offers, maxChunk);
  }

  lemma NoTries()
    ensures InOrder([]) && !LeftOpen([])
  {
  }

  /**
    And, if its gates never close, in END exactly when no output was closed before it
    was started and then started, by its handler or, being required, at the end: such
    a stream's close has already been spent.
  */
  lemma EndAcceptedIff(outputs: seq<Output>, offers: seq<Offer>, maxChunk: nat)
    requires maxChunk > 0 && OutputsOk(outputs) && Undisturbed(outputs) && NoTerminal(offers)
    requires forall i :: 0 <= i < |outputs| ==> outputs[i].credit.None?
    requires forall s: Stream :: TriesOf(offers, s) == TriedBy(outputs, s, maxChunk)
    ensures Accepted(Accepts(offers) + [Fin]) <==> forall i :: 0 <= i < |outputs| ==> !ClosedTooEarly(outputs[i])
  {
    forall s: Stream
      ensures InOrder(TriesOf(offers, s))
      ensures LeftOpen(TriesOf(offers, s)) <==> s < |outputs| && ClosedTooEarly(outputs[s])
    {
      hide InOrder, LeftOpen, Tries, ClosedTooEarly;
      assert TriesOf(offers, s) == TriedBy(outputs, s, maxChunk);
      NoTries();
      if s < |outputs| {
        FinishedSummary(outputs[s], maxChunk);
        AllTaken(Finished(outputs[s], maxChunk));
      }
    }
    hide InOrder, LeftOpen, TriesOf, TriedBy, Accepted, ClosedTooEarly;
    RulesKeptIff(outputs, offers, maxChunk);
    if i :| 0 <= i < |outputs| && ClosedTooEarly(outputs[i]) {
      assert LeftOpen(TriesOf(offers, i));
    }
  }

  // ---- The smallest requests that break the rules -------------------------------------------------

  lemma RunTwo(o: O.Out, a: O.Op, b: O.Op, maxChunk: nat)
    requires maxChunk > 0 && O.OpOk(a) && O.OpOk(b)
    ensures StreamRuns.RunOn(o, [a], maxChunk) == O.Do(o, a, maxChunk).out
    ensures StreamRuns.RunOn(o, [a, b], maxChunk) == O.Do(O.Do(o, a, maxChunk).out, b, maxChunk).out
  {
    assert [a][..0] == [] && [a, b][..1] == [a];
    assert StreamRuns.RunOn(o, [], maxChunk) == o;
  }

  lemma EmitOne(o: O.Out, v: Cbor, clock: O.Clock, maxChunk: nat)
    requires maxChunk > 0 && v.UInt? && o.mode == Some(false) && o.buf == []
    ensures O.Do(o, O.EmitCbor(v, clock), maxChunk) == O.Emit(o, O.Whole(v))
  {
    O.EmitsStep(o, O.Whole(v), []);
    assert [O.Whole(v)] + [] == [O.Whole(v)];
  }

  lemma AfterTwo(a: Emitted, b: Emitted)
    ensures After([a, b]) == match Step(Begin, a)
                             case Err(v) => Err(v)
                             case Ok(e) => Step(e, b)
    ensures After([a]) == Step(Begin, a)
  {
    AfterSnoc([], a);
    AfterSnoc([a], b);
    assert [] + [a] == [a] && [a] + [b] == [a, b];
  }

  /** The handler closes its required main output and returns: END comes with the stream open. */
  lemma ClosingUnstartedBreaks(maxChunk: nat)
    requires maxChunk > 0
    ensures var main := Output(true, false, [O.Close], None, {});
            Finished(main, maxChunk).wire == [O.StreamStart(false, false)]
            && After([OfStream(0, O.StreamStart(false, false)), Fin]) == Err(EndWithOpenStream(0))
  {
    RunTwo(O.Opened(None, {}), O.Close, O.Close, maxChunk);
    AfterTwo(OfStream(0, O.StreamStart(false, false)), Fin);
  }

  /** The STREAM_START is refused and the handler returns: its STREAM_END is for a stream never opened. */
  lemma RefusedStartBreaks(maxChunk: nat)
    requires maxChunk > 0
    ensures var main := Output(true, false, [O.Start(false, false)], None, {0});
            Finished(main, maxChunk).wire == [O.StreamEnd(Some(0))]
            && After([OfStream(0, O.StreamEnd(Some(0))), Fin]) == Err(StreamNotOpen(0))
  {
    RunTwo(O.Opened(None, {0}), O.Start(false, false), O.Close, maxChunk);
    AfterTwo(OfStream(0, O.StreamEnd(Some(0))), Fin);
  }

  /** A first chunk is refused, for its size or otherwise, and the handler emits another: it is numbered 1. */
  lemma RefusedChunkBreaks(v: Cbor, w: Cbor, clock: O.Clock, maxChunk: nat)
    requires maxChunk > 0 && v.UInt? && w.UInt?
    ensures var o := O.Do(O.Opened(None, {1}), O.Start(false, false), maxChunk).out;
            StreamRuns.RunOn(o, [O.EmitCbor(v, clock), O.EmitCbor(w, clock)], maxChunk).wire
            == [O.StreamStart(false, false), O.Chunk(1, O.Whole(w))]
    ensures After([OfStream(0, O.StreamStart(false, false)), OfStream(0, O.Chunk(1, O.Whole(w)))])
         == Err(ChunkOutOfPlace(0, 0, 1))
  {
    var o := O.Do(O.Opened(None, {1}), O.Start(false, false), maxChunk).out;
    RunTwo(o, O.EmitCbor(v, clock), O.EmitCbor(w, clock), maxChunk);
    EmitOne(o, v, clock, maxChunk);
    EmitOne(O.Emit(o, O.Whole(v)).out, w, clock, maxChunk);
    AfterTwo(OfStream(0, O.StreamStart(false, false)), OfStream(0, O.Chunk(1, O.Whole(w))));
  }

  /** A last flush is refused, which finishing the outputs passes over in silence: END comes with the stream open. */
  lemma RefusedFlushBreaks(b: byte, clock: O.Clock, maxChunk: nat)
    requires maxChunk > 0 && clock.first == clock.second
    ensures var main := Output(true, false, [O.Start(false, false), O.Write([b], clock)], None, {1});
            Finished(main, maxChunk).wire == [O.StreamStart(false, false)]
            && After([OfStream(0, O.StreamStart(false, false)), Fin]) == Err(EndWithOpenStream(0))
  {
    var o := O.Opened(None, {1});
    RunTwo(o, O.Start(false, false), O.Write([b], clock), maxChunk);
    AfterTwo(OfStream(0, O.StreamStart(false, false)), Fin);
  }

  /** The handler writes to a stream it has closed: its chunk comes behind the STREAM_END. */
  lemma WriteAfterCloseBreaks(v: Cbor, clock: O.Clock, maxChunk: nat)
    requires maxChunk > 0 && v.UInt?
    ensures var o := O.Do(O.Opened(None, {}), O.Start(false, false), maxChunk).out;
            StreamRuns.RunOn(o, [O.Close, O.EmitCbor(v, clock)], maxChunk).wire
            == [O.StreamStart(false, false), O.StreamEnd(Some(0)), O.Chunk(0, O.Whole(v))]
    ensures After([OfStream(0, O.StreamStart(false, false)), OfStream(0, O.StreamEnd(Some(0))),
                   OfStream(0, O.Chunk(0, O.Whole(v)))])
         == Err(StreamNotOpen(0))
  {
    var o := O.Do(O.Opened(None, {}), O.Start(false, false), maxChunk).out;
    RunTwo(o, O.Close, O.EmitCbor(v, clock), maxChunk);
    EmitOne(O.Do(o, O.Close, maxChunk).out, v, clock, maxChunk);
    var start, end := OfStream(0, O.StreamStart(false, false)), OfStream(0, O.StreamEnd(Some(0)));
    AfterTwo(start, end);
    var none: seq<OpenStream> := [];
    assert none + [OpenStream(0, 0)] == [OpenStream(0, 0)];
    assert [OpenStream(0, 0)][1..] == none;
    AfterSnoc([start, end], OfStream(0, O.Chunk(0, O.Whole(v))));
    assert [start, end] + [OfStream(0, O.Chunk(0, O.Whole(v)))] == [start, end, OfStream(0, O.Chunk(0, O.Whole(v)))];
  }

  // ---- The object -------------------------------------------------------------------------------

  datatype Declared = Declared(required: bool, isSequence: bool, stream: O.OutputStream)

  ghost predicate Separate(outputs: seq<Declared>)
    reads set i | 0 <= i < |outputs| :: outputs[i].stream
  {
    (forall i :: 0 <= i < |outputs| ==> outputs[i].stream.Valid())
    && (forall i, j :: 0 <= i < j < |outputs| ==>
          outputs[i].stream != outputs[j].stream && outputs[i].stream.coalesce != outputs[j].stream.coalesce)
  }

  method FinishOutput(output: Declared)
    requires output.stream.Valid()
    modifies output.stream, output.stream.coalesce
    ensures output.stream.Valid()
    ensures output.stream.State()
         == Finish(old(output.stream.State()), output.required, output.isSequence, output.stream.maxChunk)
  {
    if output.stream.streamMode.None? {
      if !output.required {
        return;
      }
      var refused := output.stream.StartStream(output.isSequence, false);
      if refused.Some? {
        return;
      }
    }
    var err := output.stream.CloseStream();
  }

  /** Ends every output once the handler has returned successfully. */
  method FinishAll(outputs: seq<Declared>)
    requires Separate(outputs)
    modifies set i | 0 <= i < |outputs| :: outputs[i].stream
    modifies set i | 0 <= i < |outputs| :: outputs[i].stream.coalesce
    ensures forall i :: 0 <= i < |outputs| ==>
              outputs[i].stream.State()
              == Finish(old(outputs[i].stream.State()), outputs[i].required, outputs[i].isSequence,
                        outputs[i].stream.maxChunk)
  {
    hide Finish;
    for k := 0 to |outputs|
      invariant Separate(outputs)
      invariant forall i :: 0 <= i < k ==>
                  outputs[i].stream.State()
                  == Finish(old(outputs[i].stream.State()), outputs[i].required, outputs[i].isSequence,
                            outputs[i].stream.maxChunk)
      invariant forall i :: k <= i < |outputs| ==> outputs[i].stream.State() == old(outputs[i].stream.State())
    {
      FinishOutput(outputs[k]);
    }
  }
}
