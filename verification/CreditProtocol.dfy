/**
  The two ends of one credited stream and the CHUNK and CREDIT channels between
  them, over every interleaving of the lock-protected steps and any refusals by the
  sender's channel.
*/
module CreditProtocol {
  import opened Wrappers
  import opened CreditModel

  /**
    The stream is given by how many fragments each item takes.  A scalar stream is
    one whose items all take one.  A fragment that continues an item is credited
    back on arrival; an item's first fragment only once the whole item is consumed.
    `checked` says whether the receiver polices its window (a request's input) or
    only paces grants with it (a peer's response, whose sender opened its window on
    another link).

    A credit is taken before its chunk is tried and never given back.  A chunk the
    channel refuses costs its credit and the rest of what its call was to send, and it
    has spent the flow's next number: the relay keeps every later frame of the flow, as
    it does behind any other frame of the flow that is refused.  CREDIT is outside the
    flow and still passes.
  */
  datatype Link = Link(
    gate: Gate,
    acquired: nat,        // credits taken whose chunk is not sent yet
    todo: seq<nat>,       // fragments still to send, item by item
    chunks: seq<bool>,    // in flight; true: this fragment completes its item
    grants: seq<nat>,     // in flight
    lost: nat,            // credits granted to a gate already closed
    broken: bool,         // a frame of the flow was refused
    gone: nat,            // credits spent on refused chunks
    held: nat,            // chunks taken behind a refused frame, which the relay keeps
    missed: nat,          // items abandoned with a refused chunk, or whose last fragment is held
    checked: bool,
    window: Window,
    partial: bool,        // the reassembly buffer holds the start of an item
    queue: nat,           // whole items decoded and not consumed
    consumed: nat,        // whole items consumed
    blocked: bool,        // the consumer flushed and waits on an empty queue
    violated: bool)

  // `Refusal` is of the chunk that is due, whose call was to send `skip` more items; `Loss` is of another frame of
  // the flow.
  datatype Step =
    | Take | Send | Refusal(skip: nat) | Loss | Arrival | Consumption | FlushAndBlock | Delivery | Shut(reason: string)

  predicate Items(todo: seq<nat>) {
    forall i :: 0 <= i < |todo| ==> todo[i] >= 1
  }

  /** Both ends just opened: the sender with window w, the receiver with `window`. */
  function Opened(w: nat, checked: bool, window: Window, items: seq<nat>): Link {
    Link(Gate(w, None), 0, items, [], [], 0, false, 0, 0, 0, checked, window, false, 0, 0, false, false)
  }

  predicate Enabled(s: Link, step: Step) {
    match step
    case Take => s.todo != [] && s.acquired == 0 && Acquire(s.gate, 1).Acquired?
    case Send => s.todo != [] && s.acquired > 0
    case Refusal(skip) => s.acquired > 0 && skip < |s.todo|
    case Loss => !s.broken
    case Arrival => s.chunks != []
    case Consumption => s.queue > 0
    case FlushAndBlock => s.queue == 0 && !s.blocked
    case Delivery => s.grants != []
    case Shut(_) => true
  }

  function Emit(grants: seq<nat>, n: nat): seq<nat> {
    if n > 0 then grants + [n] else grants
  }

  function Sent(todo: seq<nat>): seq<nat>
    requires todo != []
  {
    if todo[0] <= 1 then todo[1..] else [todo[0] - 1] + todo[1..]
  }

  /** A chunk the window accepts: a continuation is granted back, a completed item is queued. */
  function Accept(s: Link, window: Window, last: bool): Link {
    var after := if s.partial then Continued(window) else Granted(window, 0);
    s.(window := after.window,
       grants := Emit(s.grants, after.grant),
       partial := !last,
       queue := s.queue + if last then 1 else 0)
  }

  function Apply(s: Link, step: Step): Link
    requires Enabled(s, step)
  {
    match step
    case Take => s.(gate := Acquire(s.gate, 1).gate, acquired := s.acquired + 1)
    case Send =>
      var last := s.todo[0] <= 1;
      var sent := s.(acquired := s.acquired - 1, todo := Sent(s.todo));
      if s.broken then sent.(held := s.held + 1, missed := s.missed + if last then 1 else 0)
      else sent.(chunks := s.chunks + [last])
    case Refusal(skip) =>
      s.(acquired := s.acquired - 1, todo := s.todo[skip + 1..], broken := true, gone := s.gone + 1,
         missed := s.missed + skip + 1)
    case Loss => s.(broken := true)
    case Arrival =>
      var rest := s.(chunks := s.chunks[1..]);
      (match if s.checked then Arrive(s.window) else Some(s.window)
       case None => rest.(violated := true)
       case Some(window) => Accept(rest, window, s.chunks[0]))
    case Consumption =>
      var after := Consume(s.window);
      s.(queue := s.queue - 1, consumed := s.consumed + 1, blocked := false,
         window := after.window, grants := Emit(s.grants, after.grant))
    case FlushAndBlock =>
      var after := Flush(s.window);
      s.(blocked := true, window := after.window, grants := Emit(s.grants, after.grant))
    case Delivery =>
      s.(gate := Grant(s.gate, s.grants[0]),
         lost := s.lost + if s.gate.closed.Some? then s.grants[0] else 0,
         grants := s.grants[1..])
    case Shut(reason) => s.(gate := Close(s.gate, reason))
  }

  predicate CanRun(s: Link, steps: seq<Step>)
    decreases |steps|
  {
    steps == [] || (Enabled(s, steps[0]) && CanRun(Apply(s, steps[0]), steps[1..]))
  }

  function Run(s: Link, steps: seq<Step>): Link
    requires CanRun(s, steps)
    decreases |steps|
  {
    if steps == [] then s else Run(Apply(s, steps[0]), steps[1..])
  }

  function Sum(ns: seq<nat>): nat {
    if ns == [] then 0 else ns[0] + Sum(ns[1..])
  }

  lemma {:induction false} SumAppend(ns: seq<nat>, n: nat)
    ensures Sum(ns + [n]) == Sum(ns) + n
  {
    if ns != [] {
      assert (ns + [n])[1..] == ns[1..] + [n];
      SumAppend(ns[1..], n);
    }
  }

  lemma SumEmit(ns: seq<nat>, n: nat)
    ensures Sum(Emit(ns, n)) == Sum(ns) + n
  {
    SumAppend(ns, n);
  }

  lemma Cons(s: Link, step: Step, rest: seq<Step>)
    requires Enabled(s, step) && CanRun(Apply(s, step), rest)
    ensures CanRun(s, [step] + rest)
    ensures Run(s, [step] + rest) == Run(Apply(s, step), rest)
  {
    assert ([step] + rest)[1..] == rest;
  }

  // ---- Conservation ----------------------------------------------------------

  /** Every credit of the window W is in exactly one place. */
  predicate Conserved(s: Link, w: nat) {
    s.gate.available + s.acquired + |s.chunks| + (if s.partial then 1 else 0)
    + s.queue + s.window.pending + Sum(s.grants) + s.lost + s.gone + s.held == w
  }

  /** What the receiver still allows: what the sender holds, has under way or has lost, plus the opening slack. */
  predicate Mirrored(s: Link, slack: int) {
    s.window.remaining
    == slack + s.gate.available + s.acquired + |s.chunks| + Sum(s.grants) + s.lost + s.gone + s.held
  }

  function Completing(chunks: seq<bool>): nat {
    if chunks == [] then 0 else (if chunks[0] then 1 else 0) + Completing(chunks[1..])
  }

  lemma {:induction false} CompletingAppend(chunks: seq<bool>, last: bool)
    ensures Completing(chunks + [last]) == Completing(chunks) + if last then 1 else 0
  {
    if chunks != [] {
      assert (chunks + [last])[1..] == chunks[1..] + [last];
      CompletingAppend(chunks[1..], last);
    }
  }

  /** Every item is still to finish sending, under way, queued, consumed or missed. */
  predicate ItemsKept(s: Link, total: nat) {
    |s.todo| + Completing(s.chunks) + s.queue + s.consumed + s.missed == total
  }

  /** The last fragment to be passed on leaves its item open. */
  predicate MidItem(s: Link) {
    if s.chunks == [] then s.partial else !s.chunks[|s.chunks| - 1]
  }

  /** The receiver is mid-item exactly when the fragments before it are; a loss may leave an item open for good. */
  predicate Framed(s: Link) {
    Items(s.todo)
    && s.acquired <= 1
    && s.window.pending < s.window.batch
    && (forall i :: 0 <= i < |s.grants| ==> s.grants[i] >= 1)
    && (s.todo == [] ==> s.acquired == 0 && (MidItem(s) ==> s.broken))
    && (!s.broken ==> s.gone == 0 && s.held == 0 && s.missed == 0)
    && (s.blocked ==> s.window.pending == 0)
  }

  predicate Inv(s: Link, w: nat, slack: nat, total: nat) {
    Framed(s) && Conserved(s, w) && ItemsKept(s, total) && !s.violated && (s.checked ==> Mirrored(s, slack))
  }

  lemma OpenedInv(w: nat, checked: bool, window: Window, items: seq<nat>, slack: nat)
    requires Items(items) && window.batch >= 1 && window.pending == 0
    requires checked ==> window.remaining == w + slack
    ensures Inv(Opened(w, checked, window, items), w, slack, |items|)
  {
  }

  lemma StepInv(s: Link, step: Step, w: nat, slack: nat, total: nat)
    requires Inv(s, w, slack, total) && Enabled(s, step)
    ensures Inv(Apply(s, step), w, slack, total)
  {
    match step
    case Take => TakeInv(s, w, slack, total);
    case Send => SendInv(s, w, slack, total);
    case Refusal(skip) => RefusalInv(s, skip, w, slack, total);
    case Loss => LossInv(s, w, slack, total);
    case Arrival => ArrivalInv(s, w, slack, total);
    case Consumption => ConsumptionInv(s, w, slack, total);
    case FlushAndBlock => FlushInv(s, w, slack, total);
    case Delivery => DeliveryInv(s, w, slack, total);
    case Shut(reason) => ShutInv(s, reason, w, slack, total);
  }

  lemma TakeInv(s: Link, w: nat, slack: nat, total: nat)
    requires Inv(s, w, slack, total) && Enabled(s, Take)
    ensures Inv(Apply(s, Take), w, slack, total)
  {
  }

  lemma RefusalInv(s: Link, skip: nat, w: nat, slack: nat, total: nat)
    requires Inv(s, w, slack, total) && Enabled(s, Refusal(skip))
    ensures Inv(Apply(s, Refusal(skip)), w, slack, total)
  {
  }

  lemma LossInv(s: Link, w: nat, slack: nat, total: nat)
    requires Inv(s, w, slack, total) && Enabled(s, Loss)
    ensures Inv(Apply(s, Loss), w, slack, total)
  {
  }

  lemma FlushInv(s: Link, w: nat, slack: nat, total: nat)
    requires Inv(s, w, slack, total) && Enabled(s, FlushAndBlock)
    ensures Inv(Apply(s, FlushAndBlock), w, slack, total)
  {
    SumEmit(s.grants, Flush(s.window).grant);
  }

  lemma DeliveryInv(s: Link, w: nat, slack: nat, total: nat)
    requires Inv(s, w, slack, total) && Enabled(s, Delivery)
    ensures Inv(Apply(s, Delivery), w, slack, total)
  {
  }

  lemma ShutInv(s: Link, reason: string, w: nat, slack: nat, total: nat)
    requires Inv(s, w, slack, total)
    ensures Inv(Apply(s, Shut(reason)), w, slack, total)
  {
  }

  lemma SendInv(s: Link, w: nat, slack: nat, total: nat)
    requires Inv(s, w, slack, total) && Enabled(s, Send)
    ensures Inv(Apply(s, Send), w, slack, total)
  {
    CompletingAppend(s.chunks, s.todo[0] <= 1);
  }

  /** What an arrival the window accepts does: a continued item's credit goes back at once. */
  lemma ArrivalAccepted(s: Link)
    requires Enabled(s, Arrival) && (s.checked ==> s.window.remaining >= 1)
    ensures var after := Apply(s, Arrival);
            var back := if s.partial then 1 else 0;
            after == s.(chunks := s.chunks[1..], grants := Emit(s.grants, back), window := after.window,
                        partial := !s.chunks[0], queue := s.queue + if s.chunks[0] then 1 else 0)
            && after.window == s.window.(remaining := s.window.remaining + back - if s.checked then 1 else 0)
  {
  }

  lemma ArrivalInv(s: Link, w: nat, slack: nat, total: nat)
    requires Inv(s, w, slack, total) && Enabled(s, Arrival)
    ensures Inv(Apply(s, Arrival), w, slack, total)
  {
    ArrivalAccepted(s);
    SumEmit(s.grants, if s.partial then 1 else 0);
    var after := Apply(s, Arrival);
    hide Apply;
    assert Completing(s.chunks) == (if s.chunks[0] then 1 else 0) + Completing(after.chunks);
    assert MidItem(after) == MidItem(s);
  }

  lemma ConsumptionInv(s: Link, w: nat, slack: nat, total: nat)
    requires Inv(s, w, slack, total) && Enabled(s, Consumption)
    ensures Inv(Apply(s, Consumption), w, slack, total)
  {
    SumEmit(s.grants, Consume(s.window).grant);
  }

  /**
    In every run, closed gate or not and whatever the channel refuses, the credits add
    up to the sender's window, those spent on refused and held chunks among them, every
    item is accounted for, and a policing receiver mirrors the sender and finds no
    violation.
  */
  lemma {:induction false} RunConserves(s: Link, steps: seq<Step>, w: nat, slack: nat, total: nat)
    requires Inv(s, w, slack, total) && CanRun(s, steps)
    ensures Inv(Run(s, steps), w, slack, total)
    decreases |steps|
  {
    if steps != [] {
      StepInv(s, steps[0], w, slack, total);
      RunConserves(Apply(s, steps[0]), steps[1..], w, slack, total);
    }
  }

  // ---- When a pair of windows is safe ---------------------------------------

  /** No honest run over a policed stream is ever found in violation. */
  ghost predicate Safe(w: nat, r: nat) {
    forall items, steps ::
      Items(items) && CanRun(Opened(w, true, WindowOpened(r), items), steps)
      ==> !Run(Opened(w, true, WindowOpened(r), items), steps).violated
  }

  function Ones(n: nat): (ks: seq<nat>)
    ensures |ks| == n && forall i :: 0 <= i < n ==> ks[i] == 1
  {
    seq(n, _ => 1)
  }

  /** Sends and delivers n one-fragment items to a consumer that never runs. */
  lemma {:induction false} Flood(s: Link, n: nat) returns (steps: seq<Step>)
    requires s.checked && s.gate.closed.None? && s.acquired == 0 && s.chunks == [] && !s.partial && !s.broken
    requires s.todo == Ones(n) && n <= s.gate.available && s.window.remaining < n
    ensures CanRun(s, steps) && Run(s, steps).violated
    decreases n
  {
    var sending := Apply(s, Take);
    var flying := Apply(sending, Send);
    var landed := Apply(flying, Arrival);
    var rest: seq<Step> := [];
    if s.window.remaining > 0 {
      assert Ones(n)[1..] == Ones(n - 1);
      rest := Flood(landed, n - 1);
    }
    Cons(flying, Arrival, rest);
    Cons(sending, Send, [Arrival] + rest);
    Cons(s, Take, [Send] + ([Arrival] + rest));
    steps := [Take] + ([Send] + ([Arrival] + rest));
  }

  /** A receiver that polices window r never accuses an honest sender with window w exactly when w <= r. */
  lemma SafeIff(w: nat, r: nat)
    ensures Safe(w, r) <==> w <= r
  {
    if w <= r {
      forall items, steps | Items(items) && CanRun(Opened(w, true, WindowOpened(r), items), steps)
        ensures !Run(Opened(w, true, WindowOpened(r), items), steps).violated
      {
        OpenedInv(w, true, WindowOpened(r), items, r - w);
        RunConserves(Opened(w, true, WindowOpened(r), items), steps, w, r - w, |items|);
      }
    } else {
      var items := Ones(r + 1);
      var steps := Flood(Opened(w, true, WindowOpened(r), items), r + 1);
    }
  }

  // ---- Progress ----------------------------------------------------------------

  /** Nothing can happen any more except a close. */
  predicate Quiet(s: Link) {
    !Enabled(s, Take) && !Enabled(s, Send) && !Enabled(s, Arrival) && !Enabled(s, Consumption)
    && !Enabled(s, FlushAndBlock) && !Enabled(s, Delivery)
  }

  /** How much there is still to do: each step moves a credit, a chunk or the consumer one stage on. */
  function Work(s: Link): int {
    7 * (Sum(s.todo) - s.acquired) + 6 * s.acquired + 5 * |s.chunks| + (if s.partial then 4 else 0)
    + 4 * s.queue + 2 * s.window.pending + |s.grants| + (if s.blocked then 0 else 1) + (if s.broken then 0 else 1)
  }

  lemma WorkNonNegative(s: Link)
    requires Framed(s)
    ensures Work(s) >= 0
  {
  }

  lemma {:induction false} SumDrop(ns: seq<nat>, k: nat)
    requires k <= |ns|
    ensures Sum(ns[k..]) <= Sum(ns)
  {
    if k > 0 {
      assert ns[1..][k - 1..] == ns[k..];
      SumDrop(ns[1..], k - 1);
    }
  }

  /** So every run without a close is finite, whatever the schedule. */
  lemma StepWorks(s: Link, step: Step)
    requires Framed(s) && !s.violated && Enabled(s, step) && !step.Shut?
    ensures Work(Apply(s, step)) < Work(s)
  {
    match step
    case Send => SendWorks(s);
    case Refusal(skip) => RefusalWorks(s, skip);
    case _ =>
  }

  lemma SendWorks(s: Link)
    requires Framed(s) && Enabled(s, Send)
    ensures Work(Apply(s, Send)) < Work(s)
  {
    assert Sum(Sent(s.todo)) == Sum(s.todo) - 1;
  }

  lemma RefusalWorks(s: Link, skip: nat)
    requires Framed(s) && Enabled(s, Refusal(skip))
    ensures Work(Apply(s, Refusal(skip))) < Work(s)
  {
    assert s.todo[1..][skip..] == s.todo[skip + 1..];
    SumDrop(s.todo[1..], skip);
  }

  predicate SingleFragments(s: Link) {
    (forall i :: 0 <= i < |s.todo| ==> s.todo[i] == 1) && (forall i :: 0 <= i < |s.chunks| ==> s.chunks[i])
    && !s.partial
  }

  lemma StepKeepsSingle(s: Link, step: Step)
    requires SingleFragments(s) && Enabled(s, step)
    ensures SingleFragments(Apply(s, step))
  {
    match step
    case Send => SendKeepsSingle(s);
    case Refusal(skip) => RefusalKeepsSingle(s, skip);
    case Arrival => ArrivalKeepsSingle(s);
    case _ =>
      var after := Apply(s, step);
      assert after.todo == s.todo && after.chunks == s.chunks && after.partial == s.partial;
      hide Apply;
  }

  lemma SendKeepsSingle(s: Link)
    requires SingleFragments(s) && Enabled(s, Send)
    ensures SingleFragments(Apply(s, Send))
  {
    var after := Apply(s, Send);
    assert after.todo == s.todo[1..] && after.partial == s.partial;
    assert after.chunks == s.chunks || after.chunks == s.chunks + [true];
    hide Apply;
  }

  lemma RefusalKeepsSingle(s: Link, skip: nat)
    requires SingleFragments(s) && Enabled(s, Refusal(skip))
    ensures SingleFragments(Apply(s, Refusal(skip)))
  {
    var after := Apply(s, Refusal(skip));
    assert after.todo == s.todo[skip + 1..] && after.chunks == s.chunks && after.partial == s.partial;
    hide Apply;
  }

  lemma ArrivalKeepsSingle(s: Link)
    requires SingleFragments(s) && Enabled(s, Arrival)
    ensures SingleFragments(Apply(s, Arrival))
  {
    var after := Apply(s, Arrival);
    assert after.todo == s.todo && after.chunks == s.chunks[1..] && !after.partial;
    hide Apply;
  }

  lemma {:induction false} RunKeepsSingle(s: Link, steps: seq<Step>)
    requires SingleFragments(s) && CanRun(s, steps)
    ensures SingleFragments(Run(s, steps))
    decreases |steps|
  {
    hide SingleFragments, Apply, Enabled;
    if steps != [] {
      StepKeepsSingle(s, steps[0]);
      RunKeepsSingle(Apply(s, steps[0]), steps[1..]);
    }
  }

  lemma {:induction false} RunKeepsBatch(s: Link, steps: seq<Step>)
    requires CanRun(s, steps)
    ensures Run(s, steps).window.batch == s.window.batch
    decreases |steps|
  {
    if steps != [] {
      RunKeepsBatch(Apply(s, steps[0]), steps[1..]);
    }
  }

  predicate NoShut(steps: seq<Step>) {
    forall i :: 0 <= i < |steps| ==> !steps[i].Shut?
  }

  lemma {:induction false} RunStaysOpen(s: Link, steps: seq<Step>)
    requires s.gate.closed.None? && s.lost == 0 && NoShut(steps) && CanRun(s, steps)
    ensures Run(s, steps).gate.closed.None? && Run(s, steps).lost == 0
    decreases |steps|
  {
    if steps != [] {
      RunStaysOpen(Apply(s, steps[0]), steps[1..]);
    }
  }

  /** No frame of the flow is refused. */
  predicate NoLosses(steps: seq<Step>) {
    forall i :: 0 <= i < |steps| ==> !steps[i].Refusal? && !steps[i].Loss?
  }

  lemma {:induction false} RunStaysWhole(s: Link, steps: seq<Step>)
    requires !s.broken && NoLosses(steps) && CanRun(s, steps)
    ensures !Run(s, steps).broken
    decreases |steps|
  {
    if steps != [] {
      RunStaysWhole(Apply(s, steps[0]), steps[1..]);
    }
  }

  /** Credits that do not come back: those of refused and held chunks, and of an item whose rest does not come. */
  function Used(s: Link): nat {
    s.gone + s.held + if s.partial then 1 else 0
  }

  /**
    Where an open stream comes to rest: everything that can be consumed is, what is not
    used up of the window is back with the sender, and if anything is left to send, the
    whole window is used up.
  */
  predicate Settled(s: Link, w: nat, total: nat) {
    s.chunks == [] && s.grants == [] && s.queue == 0 && s.blocked
    && s.consumed + |s.todo| + s.missed == total
    && s.gate.available + Used(s) == w && (s.todo != [] ==> Used(s) == w)
  }

  /** Everything was sent and consumed and the whole window is back with the sender. */
  predicate Finished(s: Link, w: nat, total: nat) {
    s.todo == [] && s.chunks == [] && s.grants == [] && s.queue == 0 && !s.partial && s.blocked
    && s.consumed == total && s.gate.available == w
  }

  lemma QuietIsSettled(s: Link, w: nat, slack: nat, total: nat)
    requires Inv(s, w, slack, total) && s.gate.closed.None? && s.lost == 0 && Quiet(s)
    ensures Settled(s, w, total)
  {
    assert Completing(s.chunks) == 0 && Sum(s.grants) == 0;
  }

  /**
    With a window of two, or of one when every item is one fragment, an open stream
    that lost nothing only falls quiet when it is finished: no credit deadlock,
    whatever the receiver's window and batch.
  */
  lemma QuietIsFinished(s: Link, w: nat, slack: nat, total: nat)
    requires Inv(s, w, slack, total) && s.gate.closed.None? && s.lost == 0 && !s.broken
    requires w >= 2 || (w >= 1 && SingleFragments(s))
    requires Quiet(s)
    ensures Finished(s, w, total)
  {
    QuietIsSettled(s, w, slack, total);
  }

  lemma {:induction false} RunWorks(s: Link, steps: seq<Step>, w: nat, slack: nat, total: nat)
    requires Inv(s, w, slack, total) && NoShut(steps) && CanRun(s, steps)
    ensures |steps| + Work(Run(s, steps)) <= Work(s)
    decreases |steps|
  {
    if steps != [] {
      StepInv(s, steps[0], w, slack, total);
      StepWorks(s, steps[0]);
      RunWorks(Apply(s, steps[0]), steps[1..], w, slack, total);
    }
  }

  /** A credit leaves the gate only for a fragment that is then tried. */
  predicate Tried(s: Link, w: nat, length: nat) {
    s.gate.available + s.acquired + (length - Sum(s.todo)) >= w
  }

  lemma TriedStep(s: Link, step: Step, w: nat, length: nat)
    requires Framed(s) && Tried(s, w, length) && Enabled(s, step)
    ensures Tried(Apply(s, step), w, length)
  {
    if step.Refusal? {
      assert s.todo[1..][step.skip..] == s.todo[step.skip + 1..];
      SumDrop(s.todo[1..], step.skip);
    }
  }

  lemma {:induction false} RunTried(s: Link, steps: seq<Step>, w: nat, slack: nat, total: nat, length: nat)
    requires Inv(s, w, slack, total) && Tried(s, w, length) && CanRun(s, steps)
    ensures Tried(Run(s, steps), w, length)
    decreases |steps|
  {
    if steps != [] {
      StepInv(s, steps[0], w, slack, total);
      TriedStep(s, steps[0], w, length);
      RunTried(Apply(s, steps[0]), steps[1..], w, slack, total, length);
    }
  }

  /**
    Liveness: an honest run is never longer than the work it started with, and one
    that cannot be extended has settled, whatever the interleaving and whatever was
    refused: something is left to send only if the whole window is used up, which a
    stream that fits in the window never does; and if nothing was refused, with a
    window of two, or of one on one-fragment items, every item was delivered and
    consumed and the whole window is back.
  */
  lemma EveryRunFinishes(w: nat, checked: bool, window: Window, items: seq<nat>, steps: seq<Step>)
    requires Items(items) && window.batch >= 1 && window.pending == 0
    requires checked ==> w <= window.remaining
    requires NoShut(steps) && CanRun(Opened(w, checked, window, items), steps)
    ensures |steps| <= 7 * Sum(items) + 2
    ensures var end := Run(Opened(w, checked, window, items), steps);
            Quiet(end) ==>
              Settled(end, w, |items|) && (Sum(items) <= w ==> end.todo == [])
              && (NoLosses(steps) && (w >= 2 || (w == 1 && AllSingle(items))) ==> Finished(end, w, |items|))
  {
    var s, end := Opened(w, checked, window, items), Run(Opened(w, checked, window, items), steps);
    var slack := if checked then window.remaining - w else 0;
    OpenedInv(w, checked, window, items, slack);
    RunConserves(s, steps, w, slack, |items|);
    RunStaysOpen(s, steps);
    RunWorks(s, steps, w, slack, |items|);
    WorkNonNegative(end);
    RunTried(s, steps, w, slack, |items|, Sum(items));
    if Quiet(end) {
      QuietIsSettled(end, w, slack, |items|);
      if NoLosses(steps) && (w >= 2 || (w == 1 && AllSingle(items))) {
        RunStaysWhole(s, steps);
        if w == 1 {
          RunKeepsSingle(s, steps);
        }
        QuietIsFinished(end, w, slack, |items|);
      }
    }
  }

  predicate AllSingle(items: seq<nat>) {
    forall i :: 0 <= i < |items| ==> items[i] == 1
  }

  // ---- A closed gate ---------------------------------------------------------------

  lemma {:induction false} StaysClosed(s: Link, steps: seq<Step>)
    requires s.gate.closed.Some? && CanRun(s, steps)
    ensures Run(s, steps).gate == s.gate
    decreases |steps|
  {
    if steps != [] {
      StaysClosed(Apply(s, steps[0]), steps[1..]);
    }
  }

  /**
    A close is final: whatever happens behind it, nobody who asks is made to wait, all
    are told the first reason given, and the sender takes no credit, granted or not.
  */
  lemma CloseIsFinal(s: Link, reason: string, steps: seq<Step>, n: nat)
    requires CanRun(Apply(s, Shut(reason)), steps)
    ensures var end := Run(Apply(s, Shut(reason)), steps);
            Acquire(end.gate, n) == Closed(if s.gate.closed.Some? then s.gate.closed.value else reason)
            && end.gate.available == s.gate.available && !Enabled(end, Take)
  {
    StaysClosed(Apply(s, Shut(reason)), steps);
    hide Run, CanRun;
  }

  // ---- When a stream can stall --------------------------------------------------

  /** What may be refused: the stream's own chunks, and other frames of its flow. */
  datatype Refusals = Refusals(own: bool, others: bool)

  predicate Within(steps: seq<Step>, may: Refusals) {
    forall i :: 0 <= i < |steps| ==> (steps[i].Refusal? ==> may.own) && (steps[i].Loss? ==> may.others)
  }

  /** Some run without a close leaves the sender waiting and everyone else idle, for good. */
  ghost predicate CanStall(w: nat, checked: bool, window: Window, items: seq<nat>, may: Refusals) {
    exists steps :: Within(steps, may) && Stalls(Opened(w, checked, window, items), steps)
  }

  predicate Stalls(s: Link, steps: seq<Step>) {
    CanRun(s, steps) && NoShut(steps) && Quiet(Run(s, steps)) && Run(s, steps).todo != []
  }

  /** A sender with a window of one and nothing under way. */
  predicate Rested(s: Link) {
    s.gate == Gate(1, None) && s.acquired == 0 && s.chunks == [] && s.grants == [] && !s.partial && !s.broken
    && s.queue == 0 && s.blocked && s.window.pending == 0 && s.window.batch >= 1
    && (s.checked ==> s.window.remaining >= 1)
  }

  lemma {:induction false} RunAppend(s: Link, first: seq<Step>, rest: seq<Step>)
    requires CanRun(s, first) && CanRun(Run(s, first), rest)
    ensures CanRun(s, first + rest) && Run(s, first + rest) == Run(Run(s, first), rest)
    decreases |first|
  {
    if first == [] {
      assert first + rest == rest;
    } else {
      assert (first + rest)[1..] == first[1..] + rest;
      RunAppend(Apply(s, first[0]), first[1..], rest);
    }
  }

  /** Of a sender with credit and nothing in flight, one fragment crosses to the receiver, at the start of its item. */
  lemma CrossOne(s: Link) returns (steps: seq<Step>)
    requires s.gate.closed.None? && s.gate.available >= 1 && s.acquired == 0 && s.todo != []
    requires s.chunks == [] && !s.partial && !s.broken && (s.checked ==> s.window.remaining >= 1)
    ensures CanRun(s, steps) && NoFlush(steps) && NoLosses(steps)
    ensures var r := Run(s, steps);
            r == s.(gate := Gate(s.gate.available - 1, None), todo := Sent(s.todo), partial := s.todo[0] > 1,
                    window := r.window, queue := s.queue + if s.todo[0] > 1 then 0 else 1)
            && r.window == if s.checked then s.window.(remaining := s.window.remaining - 1) else s.window
  {
    var taken := Apply(s, Take);
    var sent := Apply(taken, Send);
    assert sent.chunks == [s.todo[0] <= 1];
    var there := Apply(sent, Arrival);
    assert there.chunks == [];
    hide Apply;
    Cons(sent, Arrival, []);
    Cons(taken, Send, [Arrival] + []);
    Cons(s, Take, [Send] + ([Arrival] + []));
    steps := [Take] + ([Send] + ([Arrival] + []));
  }

  /** The first fragment of the next item crosses to the receiver. */
  lemma SendOne(s: Link) returns (steps: seq<Step>)
    requires Rested(s) && s.todo != []
    ensures CanRun(s, steps) && NoShut(steps) && NoLosses(steps)
    ensures Run(s, steps).todo == Sent(s.todo) && Run(s, steps).gate == Gate(0, None)
    ensures Run(s, steps).partial == (s.todo[0] > 1) && Run(s, steps).queue == if s.todo[0] > 1 then 0 else 1
    ensures var r := Run(s, steps);
            r.acquired == 0 && r.chunks == [] && r.grants == [] && r.blocked && r.checked == s.checked && !r.broken
            && r.window.pending == 0 && r.window.batch == s.window.batch
  {
    steps := CrossOne(s);
  }

  /** The consumer takes the one queued item and its credit goes back. */
  lemma DrainOne(s: Link) returns (steps: seq<Step>)
    requires s.gate == Gate(0, None) && s.acquired == 0 && s.chunks == [] && s.grants == [] && !s.partial
    requires s.queue == 1 && s.window.pending == 0 && s.window.batch >= 1 && !s.broken
    ensures CanRun(s, steps) && NoShut(steps) && NoLosses(steps)
    ensures Rested(Run(s, steps)) && Run(s, steps).todo == s.todo
  {
    var s4 := Apply(s, Consumption);
    var s5 := Apply(s4, FlushAndBlock);
    Cons(s5, Delivery, []);
    Cons(s4, FlushAndBlock, [Delivery] + []);
    Cons(s, Consumption, [FlushAndBlock] + ([Delivery] + []));
    steps := [Consumption] + ([FlushAndBlock] + ([Delivery] + []));
  }

  lemma PassOne(s: Link) returns (steps: seq<Step>, after: Link)
    requires Rested(s) && s.todo != [] && s.todo[0] == 1
    ensures CanRun(s, steps) && NoShut(steps) && NoLosses(steps) && after == Run(s, steps)
    ensures Rested(after) && after.todo == s.todo[1..]
  {
    var there := SendOne(s);
    var back := DrainOne(Run(s, there));
    RunAppend(s, there, back);
    steps := there + back;
    after := Run(s, steps);
  }

  lemma StallLater(s: Link, first: seq<Step>, rest: seq<Step>)
    requires CanRun(s, first) && NoShut(first) && Stalls(Run(s, first), rest)
    ensures Stalls(s, first + rest)
    ensures NoLosses(first) && NoLosses(rest) ==> NoLosses(first + rest)
  {
    RunAppend(s, first, rest);
  }

  lemma {:induction false} StallAt(s: Link, i: nat) returns (steps: seq<Step>)
    requires Rested(s) && Items(s.todo) && i < |s.todo| && s.todo[i] >= 2
    ensures Stalls(s, steps) && NoLosses(steps)
    decreases i
  {
    if s.todo[0] >= 2 {
      steps := SendOne(s);
    } else {
      var first, after := PassOne(s);
      var rest := StallAt(after, i - 1);
      StallLater(s, first, rest);
      steps := first + rest;
    }
  }

  /** Behind a loss each chunk that goes out is held, until the window is used up. */
  lemma {:induction false} HoldAll(s: Link) returns (steps: seq<Step>)
    requires s.broken && s.gate.closed.None? && s.acquired == 0 && Items(s.todo) && Sum(s.todo) > s.gate.available
    ensures CanRun(s, steps) && NoFlush(steps) && NoLosses(steps)
    ensures var r := Run(s, steps);
            r == s.(gate := Gate(0, None), todo := r.todo, held := r.held, missed := r.missed) && r.todo != []
    decreases s.gate.available
  {
    if s.gate.available == 0 {
      steps := [];
    } else {
      var s1 := Apply(s, Take);
      var s2 := Apply(s1, Send);
      var rest := HoldAll(s2);
      Cons(s1, Send, rest);
      Cons(s, Take, [Send] + rest);
      steps := [Take] + ([Send] + rest);
    }
  }

  /** A stream with nothing under way that loses a frame and is longer than what is left of its window stalls. */
  lemma HoldAndStall(s: Link) returns (steps: seq<Step>)
    requires s.broken && s.gate.closed.None? && s.acquired == 0 && Items(s.todo) && Sum(s.todo) > s.gate.available
    requires s.chunks == [] && s.grants == [] && s.queue == 0 && s.window.pending == 0 && !s.blocked
    ensures Stalls(s, steps) && NoLosses(steps)
  {
    var out := HoldAll(s);
    Cons(Run(s, out), FlushAndBlock, []);
    RunAppend(s, out, [FlushAndBlock] + []);
    steps := out + ([FlushAndBlock] + []);
  }

  /** The sender's chunk that is due is refused and what its later calls are to send does not fit in what is left. */
  lemma RefuseNext(s: Link) returns (steps: seq<Step>)
    requires s.gate.closed.None? && s.acquired == 0 && Items(s.todo) && !s.broken
    requires s.chunks == [] && s.grants == [] && s.queue == 0 && s.window.pending == 0 && !s.blocked
    requires s.todo != [] && s.gate.available >= 1 && Sum(s.todo[1..]) >= s.gate.available
    ensures Stalls(s, steps) && Within(steps, Refusals(true, false))
  {
    var ready := Apply(s, Take);
    var refused := Apply(ready, Refusal(0));
    var rest := HoldAndStall(refused);
    Cons(ready, Refusal(0), rest);
    Cons(s, Take, [Refusal(0)] + rest);
    steps := [Take] + ([Refusal(0)] + rest);
  }

  /** The sender's own first refused chunk: before anything of its item is sent, or behind the item's first fragment. */
  lemma RefuseAndStall(s: Link, midway: bool) returns (steps: seq<Step>)
    requires s.gate.closed.None? && s.acquired == 0 && Items(s.todo) && !s.broken && !s.partial
    requires s.chunks == [] && s.grants == [] && s.queue == 0 && s.window.pending == 0 && !s.blocked
    requires s.checked ==> s.window.remaining >= 1
    requires s.todo != [] && (midway ==> s.todo[0] >= 2) && s.gate.available >= if midway then 2 else 1
    requires Sum(s.todo[1..]) + (if midway then 2 else 1) > s.gate.available
    ensures Stalls(s, steps) && Within(steps, Refusals(true, false))
  {
    if midway {
      var first := CrossOne(s);
      var cut := Run(s, first);
      assert cut.todo[1..] == s.todo[1..];
      var rest := RefuseNext(cut);
      StallLater(s, first, rest);
      steps := first + rest;
    } else {
      steps := RefuseNext(s);
    }
  }

  // ---- What one refused chunk can cost --------------------------------------------

  /** How far the window is known to go: the first refusal costs its call, every try behind it a fragment. */
  predicate Billed(s: Link, items: seq<nat>)
    requires items != []
  {
    var rest := Sum(items[1..]);
    if s.broken then
      s.gone >= 1 && Sum(s.todo) + s.gone + s.held <= rest + 1
      && (MidItem(s) && items[0] == 1 ==> Sum(s.todo) + s.gone + s.held + 1 <= rest)
    else if |s.todo| == |items| then
      s.todo[1..] == items[1..] && (MidItem(s) ==> items[0] >= 2) && (!MidItem(s) ==> s.todo[0] == items[0])
    else
      |s.todo| < |items| && (!MidItem(s) ==> Sum(s.todo) <= rest)
      && (MidItem(s) ==> s.todo != [] && Sum(s.todo[1..]) + 2 <= rest)
  }

  lemma MidItemStays(s: Link, step: Step)
    requires Enabled(s, step) && !s.violated && !Apply(s, step).violated && !(step.Send? && !s.broken)
    ensures MidItem(Apply(s, step)) == MidItem(s)
  {
  }

  lemma BilledStep(s: Link, step: Step, items: seq<nat>)
    requires items != [] && Items(items) && Framed(s) && Billed(s, items) && Enabled(s, step) && !step.Loss?
    requires !s.violated && !Apply(s, step).violated
    ensures Billed(Apply(s, step), items)
  {
    assert Items(s.todo);
    match step
    case Send =>
      if s.broken {
        HeldBilled(s, items);
      } else {
        SendBilled(s, items);
      }
    case Refusal(skip) =>
      MidItemStays(s, step);
      RefusalBilled(s, skip, items);
    case _ =>
      hide Framed;
      MidItemStays(s, step);
  }

  lemma HeldBilled(s: Link, items: seq<nat>)
    requires items != [] && Items(s.todo) && Billed(s, items) && Enabled(s, Send) && s.broken && !s.violated
    ensures Billed(Apply(s, Send), items)
  {
    MidItemStays(s, Send);
    assert Sum(Sent(s.todo)) == Sum(s.todo) - 1;
  }

  lemma SendBilled(s: Link, items: seq<nat>)
    requires items != [] && Items(items) && Items(s.todo) && Billed(s, items) && Enabled(s, Send) && !s.broken
    ensures Billed(Apply(s, Send), items)
  {
    var after := Apply(s, Send);
    assert after.chunks[|s.chunks|] == (s.todo[0] <= 1);
    if s.todo[0] <= 1 {
      assert after.todo == s.todo[1..];
    } else {
      assert after.todo[1..] == s.todo[1..];
    }
  }

  lemma RefusalBilled(s: Link, skip: nat, items: seq<nat>)
    requires items != [] && Items(items) && Framed(s) && Billed(s, items) && Enabled(s, Refusal(skip))
    requires MidItem(Apply(s, Refusal(skip))) == MidItem(s)
    ensures Billed(Apply(s, Refusal(skip)), items)
  {
    assert s.todo[1..][skip..] == s.todo[skip + 1..];
    SumDrop(s.todo[1..], skip);
  }

  lemma {:induction false} RunBilled(s: Link, steps: seq<Step>, items: seq<nat>, w: nat, slack: nat)
    requires items != [] && Items(items) && Inv(s, w, slack, |items|) && Billed(s, items)
    requires Within(steps, Refusals(true, false)) && CanRun(s, steps)
    ensures Billed(Run(s, steps), items)
    decreases |steps|
  {
    hide Billed;
    if steps != [] {
      StepInv(s, steps[0], w, slack, |items|);
      BilledStep(s, steps[0], items);
      RunBilled(Apply(s, steps[0]), steps[1..], items, w, slack);
    }
  }

  // ---- Exactly when ------------------------------------------------------------------

  /** The stream can stall with nothing refused. */
  predicate StallsUnrefused(w: nat, items: seq<nat>) {
    (w == 0 && items != []) || (w == 1 && exists i :: 0 <= i < |items| && items[i] >= 2)
  }

  /**
    And by a chunk of its own that is refused: what its later calls are to send does not
    fit in the window that is left, which is one credit short, or two if the refusal
    leaves an item open.
  */
  predicate StallsRefused(w: nat, items: seq<nat>) {
    w >= 1 && items != [] && Sum(items[1..]) >= Max(1, w - if items[0] >= 2 then 1 else 0)
  }

  predicate StallCondition(w: nat, items: seq<nat>, may: Refusals) {
    if may.others then Sum(items) > w
    else StallsUnrefused(w, items) || (may.own && StallsRefused(w, items))
  }

  lemma StallsOnlyIf(w: nat, checked: bool, window: Window, items: seq<nat>, may: Refusals, steps: seq<Step>)
    requires Items(items) && window.batch >= 1 && window.pending == 0
    requires checked ==> w <= window.remaining
    requires Within(steps, may) && Stalls(Opened(w, checked, window, items), steps)
    ensures StallCondition(w, items, may)
  {
    var s, end := Opened(w, checked, window, items), Run(Opened(w, checked, window, items), steps);
    var slack := if checked then window.remaining - w else 0;
    EveryRunFinishes(w, checked, window, items, steps);
    if !may.others && !may.own {
      assert NoLosses(steps);
      assert w <= 1;
    } else if !may.others && items != [] {
      OpenedInv(w, checked, window, items, slack);
      RunBilled(s, steps, items, w, slack);
      RunConserves(s, steps, w, slack, |items|);
      if !end.broken {
        WholeStalls(s, end, steps, w, items);
      }
    }
  }

  lemma WholeStalls(s: Link, end: Link, steps: seq<Step>, w: nat, items: seq<nat>)
    requires CanRun(s, steps) && end == Run(s, steps) && !end.broken && end.gone == 0 && end.held == 0
    requires s.todo == items && s.chunks == [] && !s.partial && Items(items)
    requires Settled(end, w, |items|) && end.todo != []
    ensures StallsUnrefused(w, items)
  {
    if w == 1 && forall i :: 0 <= i < |items| ==> items[i] < 2 {
      RunKeepsSingle(s, steps);
    }
  }

  /**
    The exact stall condition, for any receiver window and batch.  With nothing
    refused: no credit at all, or a window of one and an item of several fragments,
    whose first fragment's credit only comes back with the item.  With a chunk of the
    stream's own refused: also when what the later calls are to send does not fit in
    what is left of the window.  With any frame of its flow refused: when the stream is
    longer than its window.
  */
  lemma CanStallIff(w: nat, checked: bool, window: Window, items: seq<nat>, may: Refusals)
    requires Items(items) && window.batch >= 1 && window.pending == 0
    requires checked ==> w <= window.remaining
    ensures CanStall(w, checked, window, items, may) <==> StallCondition(w, items, may)
  {
    if steps :| Within(steps, may) && Stalls(Opened(w, checked, window, items), steps) {
      StallsOnlyIf(w, checked, window, items, may, steps);
    }
    if StallCondition(w, items, may) {
      var steps := SomeStall(w, checked, window, items, may);
    }
  }

  lemma SomeStall(w: nat, checked: bool, window: Window, items: seq<nat>, may: Refusals) returns (steps: seq<Step>)
    requires Items(items) && window.batch >= 1 && window.pending == 0
    requires checked ==> w <= window.remaining
    requires StallCondition(w, items, may)
    ensures Within(steps, may) && Stalls(Opened(w, checked, window, items), steps)
  {
    var s := Opened(w, checked, window, items);
    if may.others {
      var rest := HoldAndStall(Apply(s, Loss));
      Cons(s, Loss, rest);
      steps := [Loss] + rest;
    } else if StallsUnrefused(w, items) {
      steps := StallUnrefused(s, w);
    } else {
      steps := RefuseAndStall(s, w >= 2 && items[0] >= 2);
    }
  }

  lemma StallUnrefused(s: Link, w: nat) returns (steps: seq<Step>)
    requires s.window.batch >= 1 && s.window.pending == 0 && s.gate == Gate(w, None)
    requires s == Opened(w, s.checked, s.window, s.todo) && (s.checked ==> w <= s.window.remaining)
    requires Items(s.todo) && StallsUnrefused(w, s.todo)
    ensures NoLosses(steps) && Stalls(s, steps)
  {
    var blocked := Apply(s, FlushAndBlock);
    if w == 0 {
      Cons(s, FlushAndBlock, []);
      steps := [FlushAndBlock] + [];
    } else {
      var i :| 0 <= i < |s.todo| && s.todo[i] >= 2;
      var rest := StallAt(blocked, i);
      Cons(s, FlushAndBlock, rest);
      steps := [FlushAndBlock] + rest;
    }
  }

  /** One chunk refused, and the consumer blocks. */
  lemma RefuseOne(s: Link, steps: seq<Step>)
    requires s.gate.closed.None? && s.gate.available >= 1 && s.acquired == 0 && |s.todo| >= 1
    requires s.window.pending == 0 && s.queue == 0 && !s.blocked && s.chunks == [] && s.grants == []
    requires steps == [Take, Refusal(0), FlushAndBlock]
    ensures CanRun(s, steps)
    ensures Run(s, steps)
            == s.(gate := Gate(s.gate.available - 1, None), todo := s.todo[1..], broken := true, gone := s.gone + 1,
                  missed := s.missed + 1, blocked := true)
  {
    var taken := Apply(s, Take);
    var refused := Apply(taken, Refusal(0));
    assert refused.todo == s.todo[1..];
    Cons(refused, FlushAndBlock, []);
    Cons(taken, Refusal(0), [FlushAndBlock]);
    Cons(s, Take, [Refusal(0), FlushAndBlock]);
    assert steps == [Take] + [Refusal(0), FlushAndBlock];
    assert [Refusal(0), FlushAndBlock] == [Refusal(0)] + [FlushAndBlock];
    assert [FlushAndBlock] == [FlushAndBlock] + [];
  }

  /** The smallest stall by a refusal: a window of one, its chunk refused, and the next waits at an open gate. */
  lemma RefusedChunkStalls(checked: bool)
    ensures var s, steps := Opened(1, checked, WindowOpened(1), [1, 1]), [Take, Refusal(0), FlushAndBlock];
            Stalls(s, steps) && Run(s, steps).todo == [1] && Run(s, steps).gate == Gate(0, None)
  {
    hide CanRun, Run;
    RefuseOne(Opened(1, checked, WindowOpened(1), [1, 1]), [Take, Refusal(0), FlushAndBlock]);
  }

  // ---- A consumer that leaves without flushing -----------------------------------

  predicate NoFlush(steps: seq<Step>) {
    forall i :: 0 <= i < |steps| ==> !steps[i].FlushAndBlock? && !steps[i].Shut?
  }

  /** The stream waits for a flush that a consumer reading another stream never makes. */
  predicate Deserted(s: Link) {
    s.todo != [] && !Enabled(s, Take) && !Enabled(s, Send) && !Enabled(s, Arrival)
    && !Enabled(s, Consumption) && !Enabled(s, Delivery)
  }

  predicate Deserts(s: Link, steps: seq<Step>) {
    NoFlush(steps) && CanRun(s, steps) && Deserted(Run(s, steps))
  }

  ghost predicate CanDesert(w: nat, window: Window, n: nat, may: Refusals) {
    exists steps :: Within(steps, may) && Deserts(Opened(w, false, window, Ones(n)), steps)
  }

  lemma {:induction false} ConsumeAll(s: Link, n: nat) returns (steps: seq<Step>)
    requires !s.checked && s.gate.closed.None? && s.acquired == 0 && s.chunks == [] && !s.partial && !s.broken
    requires s.grants == [] && s.queue == 0 && s.todo == Ones(n) && n > s.gate.available
    requires s.window.pending + s.gate.available < s.window.batch
    ensures Deserts(s, steps) && NoLosses(steps)
    decreases n
  {
    if s.gate.available == 0 {
      steps := [];
    } else {
      var there := CrossOne(s);
      var landed := Run(s, there);
      assert Ones(n)[1..] == Ones(n - 1);
      var rest := ConsumeAll(Apply(landed, Consumption), n - 1);
      Cons(landed, Consumption, rest);
      RunAppend(s, there, [Consumption] + rest);
      steps := there + ([Consumption] + rest);
    }
  }

  lemma {:induction false} SumOnes(n: nat)
    ensures Sum(Ones(n)) == n
  {
    if n > 0 {
      assert Ones(n)[1..] == Ones(n - 1);
      SumOnes(n - 1);
    }
  }

  /** Behind a refusal the window runs out whatever the batch. */
  lemma RefuseAndDesert(w: nat, window: Window, n: nat, may: Refusals) returns (steps: seq<Step>)
    requires n > w && (may.own || may.others)
    ensures Within(steps, may) && Deserts(Opened(w, false, window, Ones(n)), steps)
  {
    var s := Opened(w, false, window, Ones(n));
    SumOnes(n);
    if w == 0 {
      steps := [];
    } else if may.others {
      var rest := HoldAll(Apply(s, Loss));
      Cons(s, Loss, rest);
      steps := [Loss] + rest;
    } else {
      var s1 := Apply(s, Take);
      var s2 := Apply(s1, Refusal(0));
      assert Ones(n)[1..] == Ones(n - 1);
      SumOnes(n - 1);
      var rest := HoldAll(s2);
      Cons(s1, Refusal(0), rest);
      Cons(s, Take, [Refusal(0)] + rest);
      steps := [Take] + ([Refusal(0)] + rest);
    }
  }

  /**
    Flushing only the stream one is about to block on is not enough for a handler
    of several streams: a stream it left with grants pending can wait for ever,
    exactly when the receiver's batch is larger than the sender's window, or a frame
    of the stream's flow may be refused.
  */
  lemma CanDesertIff(w: nat, window: Window, n: nat, may: Refusals)
    requires n > w && window.batch >= 1 && window.pending == 0
    ensures CanDesert(w, window, n, may) <==> w < window.batch || may.own || may.others
  {
    var s := Opened(w, false, window, Ones(n));
    if !may.own && !may.others {
      if steps :| Within(steps, may) && Deserts(s, steps) {
        WholeDeserts(w, window, n, steps);
      }
      if w < window.batch {
        var steps := ConsumeAll(s, n);
        assert Within(steps, may);
      }
    } else {
      var steps := RefuseAndDesert(w, window, n, may);
    }
  }

  lemma WholeDeserts(w: nat, window: Window, n: nat, steps: seq<Step>)
    requires n > w && window.batch >= 1 && window.pending == 0 && NoLosses(steps)
    requires Deserts(Opened(w, false, window, Ones(n)), steps)
    ensures w < window.batch
  {
    var s := Opened(w, false, window, Ones(n));
    OpenedInv(w, false, window, Ones(n), 0);
    RunConserves(s, steps, w, 0, n);
    RunKeepsSingle(s, steps);
    RunStaysOpen(s, steps);
    RunStaysWhole(s, steps);
    RunKeepsBatch(s, steps);
    var left := Run(s, steps);
    assert left.grants == [] && left.window.pending == w;
  }
}
