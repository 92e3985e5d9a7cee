/**
  One request on the wire: what its handler sends, the terminal that ends it and
  the stragglers behind, through the one gate all frames of a cartridge pass.
*/
module RequestWire {
  import opened Emission
  import opened Frames
  import opened Offers
  import opened RequestOutput
  import opened Wrappers
  import opened WriterGate

  // A frame handed to the writer, with what it says to the rules.
  datatype Sent = Sent(attempt: Attempt, says: Emitted)

  /** Kinds and what they say agree. */
  predicate Says(kind: FrameType, e: Emitted) {
    match e
    case OfStream(_, StreamStart(_, _)) => kind == FrameType.StreamStart
    case OfStream(_, Chunk(_, _)) => kind == FrameType.Chunk
    case OfStream(_, StreamEnd(_)) => kind == FrameType.StreamEnd
    case Fin => kind == FrameType.End
    case Failed => kind == FrameType.Err
    case Other => kind == FrameType.Req || kind == FrameType.Log
  }

  predicate AllSay(sent: seq<Sent>, key: FlowKey) {
    forall i :: 0 <= i < |sent| && OnFlow(sent[i].attempt.frame, key) ==> Says(sent[i].attempt.frame.kind, sent[i].says)
  }

  function Attempts(sent: seq<Sent>): (attempts: seq<Attempt>)
    ensures |attempts| == |sent|
  {
    seq(|sent|, i requires 0 <= i < |sent| => sent[i].attempt)
  }

  /** What was handed over for the flow, and what of it the channel takes. */
  function Own(sent: seq<Sent>, key: FlowKey): seq<Offer> {
    if sent == [] then []
    else
      var last := sent[|sent| - 1];
      Own(sent[..|sent| - 1], key)
      + if OnFlow(last.attempt.frame, key) then [Offer(last.says, last.attempt.ok)] else []
  }

  /** The attempt passes the gate and is written. */
  predicate Written(sent: seq<Sent>, i: nat, cap: nat, key: FlowKey)
    requires cap > 0 && i < |sent|
  {
    OnFlow(sent[i].attempt.frame, key) && sent[i].attempt.ok && key !in Sends(Attempts(sent[..i]), cap).ended
  }

  /** What of it reached the wire. */
  function OnWire(sent: seq<Sent>, cap: nat, key: FlowKey): seq<Emitted>
    requires cap > 0
  {
    if sent == [] then []
    else
      var n := |sent| - 1;
      OnWire(sent[..n], cap, key) + if Written(sent, n, cap, key) then [sent[n].says] else []
  }

  /** The flow's last frame on the wire was its terminal, and fewer others have ended since than the record holds. */
  predicate Remembered(sent: seq<Sent>, i: nat, cap: nat, key: FlowKey)
    requires cap > 0 && i <= |sent|
  {
    var wire := Sends(Attempts(sent[..i]), cap).wire;
    Ended(wire, key) && |Keys(EndedSince(wire, key))| < cap
  }

  lemma AttemptsPrefix(sent: seq<Sent>, n: nat)
    requires n <= |sent|
    ensures Attempts(sent[..n]) == Attempts(sent)[..n]
  {
  }

  lemma RememberedIffInQueue(sent: seq<Sent>, i: nat, cap: nat, key: FlowKey)
    requires cap > 0 && i <= |sent|
    ensures Remembered(sent, i, cap, key) <==> key in Sends(Attempts(sent[..i]), cap).ended
  {
    var attempts := Attempts(sent[..i]);
    GateHolds(attempts, cap);
    var s := Sends(attempts, cap);
    assert Remembers(s.ended, s.wire, cap, key);
  }

  // ---- Up to the terminal --------------------------------------------------------------------------

  /** Of the first n the channel takes no terminal of the flow. */
  predicate NoTerminalYet(sent: seq<Sent>, n: nat, key: FlowKey) {
    n <= |sent| &&
    forall i :: 0 <= i < n && OnFlow(sent[i].attempt.frame, key) && sent[i].attempt.ok ==>
      !IsTerminal(sent[i].attempt.frame.kind)
  }

  /** The t-th is the flow's terminal, the first the channel takes; of the frames before it may refuse any. */
  predicate EndsAt(sent: seq<Sent>, t: nat, key: FlowKey) {
    t < |sent| && OnFlow(sent[t].attempt.frame, key) && IsTerminal(sent[t].attempt.frame.kind) && sent[t].attempt.ok
    && NoTerminalYet(sent, t, key)
  }

  /** A flow no terminal of which was taken is not in the record. */
  lemma {:induction false} NotEndedBefore(sent: seq<Sent>, n: nat, cap: nat, key: FlowKey)
    requires cap > 0 && NoTerminalYet(sent, n, key)
    ensures key !in Sends(Attempts(sent[..n]), cap).ended
  {
    if n > 0 {
      NotEndedBefore(sent, n - 1, cap, key);
      var attempts := Attempts(sent[..n]);
      AttemptsPrefix(sent, n);
      AttemptsPrefix(sent, n - 1);
      assert attempts[..n - 1] == Attempts(sent[..n - 1]);
      assert attempts[n - 1] == sent[n - 1].attempt;
    }
  }

  /** Up to its terminal, what the channel takes of the flow is what reaches the wire. */
  lemma {:induction false} TakenReachesWire(sent: seq<Sent>, n: nat, cap: nat, key: FlowKey)
    requires cap > 0 && NoTerminalYet(sent, n, key)
    ensures OnWire(sent[..n], cap, key) == Accepts(Own(sent[..n], key))
  {
    if n > 0 {
      TakenReachesWire(sent, n - 1, cap, key);
      NotEndedBefore(sent, n - 1, cap, key);
      assert sent[..n][..n - 1] == sent[..n - 1];
      assert sent[..n][n - 1] == sent[n - 1];
      var own := Own(sent[..n - 1], key);
      AcceptsSnoc(own, Offer(sent[n - 1].says, sent[n - 1].attempt.ok));
      hide Sends, Accepts, Own, OnWire;
      OwnSnoc(sent, n, key);
      OnWireSnoc(sent, n, cap, key);
      assert own + [] == own && Accepts(own) + [] == Accepts(own);
    }
  }

  lemma AcceptsSnoc(offers: seq<Offer>, last: Offer)
    ensures Accepts(offers + [last]) == Accepts(offers) + if last.taken then [last.says] else []
  {
    assert (offers + [last])[..|offers|] == offers;
  }

  lemma OwnSnoc(sent: seq<Sent>, n: nat, key: FlowKey)
    requires 0 < n <= |sent|
    ensures var last := sent[n - 1];
            Own(sent[..n], key)
            == Own(sent[..n - 1], key)
               + if OnFlow(last.attempt.frame, key) then [Offer(last.says, last.attempt.ok)] else []
  {
    assert sent[..n][..n - 1] == sent[..n - 1] && sent[..n][n - 1] == sent[n - 1];
  }

  lemma OnWireSnoc(sent: seq<Sent>, n: nat, cap: nat, key: FlowKey)
    requires cap > 0 && 0 < n <= |sent|
    ensures OnWire(sent[..n], cap, key)
         == OnWire(sent[..n - 1], cap, key) + if Written(sent, n - 1, cap, key) then [sent[n - 1].says] else []
  {
    assert sent[..n][..n - 1] == sent[..n - 1] && sent[..n][n - 1] == sent[n - 1];
  }

  // ---- Behind it -----------------------------------------------------------------------------------

  /** A straggler is written although the flow is over. */
  predicate SlipsThrough(sent: seq<Sent>, j: nat, cap: nat, key: FlowKey)
    requires cap > 0 && j < |sent|
  {
    OnFlow(sent[j].attempt.frame, key) && sent[j].attempt.ok && !Remembered(sent, j, cap, key)
  }

  lemma {:induction false} BehindTheTerminal(sent: seq<Sent>, t: nat, n: nat, cap: nat, key: FlowKey)
    requires cap > 0 && EndsAt(sent, t, key) && t < n <= |sent|
    ensures Prefix(OnWire(sent[..t + 1], cap, key), OnWire(sent[..n], cap, key))
    ensures OnWire(sent[..n], cap, key) == OnWire(sent[..t + 1], cap, key)
            <==> forall j :: t < j < n ==> !SlipsThrough(sent, j, cap, key)
    decreases n
  {
    if n > t + 1 {
      hide OnWire, SlipsThrough, EndsAt, Written, Prefix;
      BehindTheTerminal(sent, t, n - 1, cap, key);
      OneMoreBehind(sent, n, cap, key);
      Longer(OnWire(sent[..t + 1], cap, key), OnWire(sent[..n - 1], cap, key), sent[n - 1].says,
             SlipsThrough(sent, n - 1, cap, key));
    }
  }

  lemma Longer(a: seq<Emitted>, b: seq<Emitted>, last: Emitted, more: bool)
    requires Prefix(a, b)
    ensures var c := b + if more then [last] else [];
            Prefix(a, c) && (c == a <==> b == a && !more)
  {
    assert |b + [last]| > |a|;
    assert b + [] == b;
  }

  lemma OneMoreBehind(sent: seq<Sent>, n: nat, cap: nat, key: FlowKey)
    requires cap > 0 && 0 < n <= |sent|
    ensures OnWire(sent[..n], cap, key)
         == OnWire(sent[..n - 1], cap, key) + if SlipsThrough(sent, n - 1, cap, key) then [sent[n - 1].says] else []
  {
    RememberedIffInQueue(sent, n - 1, cap, key);
    hide Remembered;
    OnWireSnoc(sent, n, cap, key);
  }

  lemma {:induction false} AcceptedPrefix(a: seq<Emitted>, b: seq<Emitted>)
    requires Accepted(a + b)
    ensures Accepted(a)
    decreases |b|
  {
    if b == [] {
      assert a + b == a;
    } else {
      var init, last := b[..|b| - 1], b[|b| - 1];
      assert a + b == (a + init) + [last];
      AfterSnoc(a + init, last);
      AcceptedPrefix(a, init);
    }
  }

  /** Emissions that begin with one that is over are accepted only if they are that one. */
  lemma OverIsAll(over: seq<Emitted>, all: seq<Emitted>)
    requires Prefix(over, all) && over != [] && (over[|over| - 1].Fin? || over[|over| - 1].Failed?)
    ensures Accepted(all) <==> Accepted(over) && all == over
  {
    if all != over {
      var n := |over| - 1;
      NothingAfterTerminal(over[..n], over[n], all[n + 1]);
      assert over == over[..n] + [over[n]];
      assert all == (over[..n] + [over[n]] + [all[n + 1]]) + all[n + 2..];
      if Accepted(all) {
        AcceptedPrefix(over[..n] + [over[n]] + [all[n + 1]], all[n + 2..]);
      }
    }
  }

  // ---- One request ---------------------------------------------------------------------------------

  /**
    A request no terminal of which was taken, at any moment: it keeps the rules exactly
    when nothing is taken that breaks a stream.
  */
  lemma OpenRequestKeepsTheRules(outputs: seq<Output>, maxChunk: nat, sent: seq<Sent>, cap: nat, key: FlowKey)
    requires maxChunk > 0 && OutputsOk(outputs) && cap > 0 && NoTerminalYet(sent, |sent|, key)
    requires HandedOver(Own(sent, key), outputs, maxChunk)
    ensures Accepted(OnWire(sent, cap, key)) <==> AllInOrder(Own(sent, key))
  {
    assert sent[..|sent|] == sent;
    TakenReachesWire(sent, |sent|, cap, key);
    RulesKeptIff(outputs, Own(sent, key), maxChunk);
  }

  /** The terminal behind what was handed over: END asks also that no stream is left open. */
  ghost predicate EndsInOrder(offers: seq<Offer>, terminal: Emitted) {
    AllInOrder(offers) && (terminal.Fin? ==> NoneLeftOpen(offers))
  }

  lemma EndsAcceptedIff(outputs: seq<Output>, offers: seq<Offer>, terminal: Emitted, maxChunk: nat)
    requires maxChunk > 0 && OutputsOk(outputs) && HandedOver(offers, outputs, maxChunk)
    requires terminal.Fin? || terminal.Failed?
    ensures Accepted(Accepts(offers) + [terminal]) <==> EndsInOrder(offers, terminal)
  {
    hide HandedOver, OutputsOk, Accepts, AllInOrder, NoneLeftOpen, Accepted;
    RulesKeptIff(outputs, offers, maxChunk);
  }

  /**
    One request, from its handler's first call to the last straggler.  Whatever its
    handler does, wherever a cancel cuts it, whatever the channel refuses, however its
    frames and other flows' interleave, and whatever detached writers send behind its
    terminal: what reaches the wire keeps the rules exactly when, of the frames handed
    over before the terminal, none is taken that breaks its stream, an END leaves no
    stream open, and every straggler the channel takes comes while the flow is
    remembered as ended; and then the wire carries the frames taken and the one
    terminal, no more.
  */
  lemma RequestKeepsTheRules(outputs: seq<Output>, maxChunk: nat, sent: seq<Sent>, t: nat, cap: nat, key: FlowKey)
    requires maxChunk > 0 && OutputsOk(outputs) && cap > 0 && EndsAt(sent, t, key) && AllSay(sent, key)
    requires HandedOver(Own(sent[..t], key), outputs, maxChunk)
    ensures Accepted(OnWire(sent, cap, key))
            <==> EndsInOrder(Own(sent[..t], key), sent[t].says)
                 && forall j :: t < j < |sent| ==> !SlipsThrough(sent, j, cap, key)
    ensures Accepted(OnWire(sent, cap, key)) ==> OnWire(sent, cap, key) == Accepts(Own(sent[..t], key)) + [sent[t].says]
  {
    var own := Own(sent[..t], key);
    var over := Accepts(own) + [sent[t].says];
    assert Says(sent[t].attempt.frame.kind, sent[t].says);
    UpToTerminal(sent, t, cap, key);
    EndsAcceptedIff(outputs, own, sent[t].says, maxChunk);
    hide Own, OnWire, SlipsThrough, HandedOver, OutputsOk, Accepts, EndsInOrder, Accepted;
    hide EndsAt, AllSay, NoTerminalYet;
    assert sent[..|sent|] == sent;
    BehindTheTerminal(sent, t, |sent|, cap, key);
    OverIsAll(over, OnWire(sent, cap, key));
  }

  lemma UpToTerminal(sent: seq<Sent>, t: nat, cap: nat, key: FlowKey)
    requires cap > 0 && EndsAt(sent, t, key)
    ensures OnWire(sent[..t + 1], cap, key) == Accepts(Own(sent[..t], key)) + [sent[t].says]
  {
    TakenReachesWire(sent, t, cap, key);
    NotEndedBefore(sent, t, cap, key);
    OnWireSnoc(sent, t + 1, cap, key);
  }
}
