/**
  Per-stream credit flow control.

  `CreditModel` holds the decisions of the generated program; `Credit` holds the
  lock-protected objects that keep a decision's state and what goes beside it:
  parked waiters, and the gates a CREDIT frame is routed to.
*/
module CreditModel {
  import opened Wrappers

  datatype Gate = Gate(available: nat, closed: Option<string>)
  datatype Acquisition = Acquired(gate: Gate) | Wait | Closed(reason: string)

  function Acquire(g: Gate, n: nat): Acquisition {
    match g.closed
    case Some(reason) => Closed(reason)
    case None => if n <= g.available then Acquired(g.(available := g.available - n)) else Wait
  }

  // Grants after close are no-ops, and the first close reason stays.
  function Grant(g: Gate, n: nat): Gate {
    if g.closed.Some? then g else g.(available := g.available + n)
  }

  function Close(g: Gate, reason: string): Gate {
    if g.closed.Some? then g else g.(closed := Some(reason))
  }

  datatype Window = Window(remaining: nat, pending: nat, batch: nat)
  datatype Granted = Granted(window: Window, grant: nat)

  function WindowOpened(w: nat): Window {
    Window(w, 0, if w / 2 >= 1 then w / 2 else 1)
  }

  function Arrive(w: Window): Option<Window> {
    if w.remaining == 0 then None else Some(w.(remaining := w.remaining - 1))
  }

  function Flush(w: Window): Granted {
    Granted(w.(remaining := w.remaining + w.pending, pending := 0), w.pending)
  }

  function Consume(w: Window): Granted {
    var counted := w.(pending := w.pending + 1);
    if counted.batch <= counted.pending then Flush(counted) else Granted(counted, 0)
  }

  function Continued(w: Window): Granted {
    Granted(w.(remaining := w.remaining + 1), 1)
  }

  /** Which of a request's streams a grant is for: the one it names or, naming none, the only one. */
  function GrantTarget(streams: seq<Option<string>>, named: Option<string>): Option<Option<string>> {
    if named in streams then Some(named)
    else if named.None? && |streams| == 1 then Some(streams[0])
    else None
  }
}

module Credit {
  import opened Wrappers
  import opened CreditModel

  datatype Waiter = Waiter(id: nat, n: nat)

  /** What one pass through the locked check-or-park section does to the asker. */
  datatype Asked = Resumed | Parked | Threw(reason: string)

  class CreditGate {
    var state: Gate
    var waiters: seq<Waiter>

    /** No lost wakeup: whoever is parked would be told to wait again. */
    ghost predicate Valid()
      reads this
    {
      forall i :: 0 <= i < |waiters| ==> Acquire(state, waiters[i].n).Wait?
    }

    constructor (initialCredit: nat)
      ensures Valid() && state == Gate(initialCredit, None) && waiters == []
    {
      state := Gate(initialCredit, None);
      waiters := [];
    }

    /** One round of `acquire`: take the credit, or park under the same lock hold, or throw. */
    method Ask(id: nat, n: nat) returns (r: Asked)
      requires Valid()
      modifies this
      ensures Valid()
      ensures match old(Acquire(state, n))
              case Acquired(g) => r == Resumed && state == g && waiters == old(waiters)
              case Wait => r == Parked && state == old(state) && waiters == old(waiters) + [Waiter(id, n)]
              case Closed(why) => r == Threw(why) && state == old(state) && waiters == old(waiters)
    {
      match Acquire(state, n) {
        case Acquired(g) =>
          state := g;
          return Resumed;
        case Wait =>
          waiters := waiters + [Waiter(id, n)];
          return Parked;
        case Closed(reason) =>
          return Threw(reason);
      }
    }

    method WakeAll() returns (woken: seq<Waiter>)
      modifies this`waiters
      ensures woken == old(waiters) && waiters == []
    {
      woken := waiters;
      waiters := [];
    }

    method GrantCredits(n: nat) returns (woken: seq<Waiter>)
      requires Valid()
      modifies this
      ensures Valid() && state == Grant(old(state), n)
      ensures woken == old(waiters) && waiters == []
    {
      state := Grant(state, n);
      woken := WakeAll();
    }

    method CloseGate(reason: string) returns (woken: seq<Waiter>)
      requires Valid()
      modifies this
      ensures Valid() && state == Close(old(state), reason) && state.closed.Some?
      ensures woken == old(waiters) && waiters == []
    {
      state := Close(state, reason);
      woken := WakeAll();
    }
  }

  class CreditWindow {
    var state: Window

    constructor (initialCredit: nat)
      ensures state == WindowOpened(initialCredit)
    {
      state := WindowOpened(initialCredit);
    }

    method Arrived() returns (accepted: bool)
      modifies this
      ensures accepted == old(Arrive(state)).Some?
      ensures state == old(Arrive(state)).GetOr(old(state))
    {
      var next := Arrive(state);
      accepted := next.Some?;
      if accepted {
        state := next.value;
      }
    }

    method Consumed() returns (grant: nat)
      modifies this
      ensures Granted(state, grant) == Consume(old(state))
    {
      var step := Consume(state);
      state, grant := step.window, step.grant;
    }

    method Flushed() returns (grant: nat)
      modifies this
      ensures Granted(state, grant) == Flush(old(state))
    {
      var step := Flush(state);
      state, grant := step.window, step.grant;
    }

    method ContinuedItem() returns (grant: nat)
      modifies this
      ensures Granted(state, grant) == Continued(old(state))
    {
      var step := Continued(state);
      state, grant := step.window, step.grant;
    }
  }

  datatype GateKey = GateKey(rid: nat, streamId: Option<string>)

  class CreditRouter {
    var gates: map<GateKey, CreditGate>

    ghost predicate Valid()
      reads this, gates.Values
    {
      forall k :: k in gates ==> gates[k].Valid()
    }

    constructor ()
      ensures Valid() && gates == map[]
    {
      gates := map[];
    }

    method Register(key: GateKey, gate: CreditGate)
      requires Valid() && gate.Valid()
      modifies this
      ensures Valid() && gates == old(gates)[key := gate]
    {
      gates := gates[key := gate];
    }

    ghost function OfRequest(rid: nat): set<CreditGate>
      reads this
    {
      set k | k in gates && k.rid == rid :: gates[k]
    }

    /**
      Remove and close every gate of a request.  Afterwards none of them keeps a
      waiter parked, and every later ask on one of them throws.
    */
    method CloseRequest(rid: nat, reason: string)
      requires Valid()
      modifies this, OfRequest(rid)
      ensures Valid()
      ensures forall k :: k in gates <==> k in old(gates) && k.rid != rid
      ensures forall k :: k in gates ==> gates[k] == old(gates)[k]
      ensures forall g :: g in old(OfRequest(rid)) ==>
                g.Valid() && g.waiters == [] && g.state == Close(old(g.state), reason)
    {
      ghost var closing := OfRequest(rid);
      var keys := set k | k in gates && k.rid == rid;
      var open := gates;
      gates := gates - keys;
      var todo := keys;
      while todo != {}
        invariant todo <= keys && gates == open - keys
        invariant forall k :: k in open ==> open[k].Valid()
        invariant forall g :: g in closing ==>
                    g.state == old(g.state) || g.state == Close(old(g.state), reason)
        invariant forall k :: k in keys - todo ==>
                    open[k].waiters == [] && open[k].state == Close(old(open[k].state), reason)
        decreases todo
      {
        var k :| k in todo;
        todo := todo - {k};
        var woken := open[k].CloseGate(reason);
      }
    }

    /** The stream a CREDIT frame credits: the one it names or, naming none, the request's only one. */
    ghost predicate IsTarget(rid: nat, named: Option<string>, s: Option<string>)
      reads this
    {
      GateKey(rid, s) in gates
      && (s == named
          || (named.None? && GateKey(rid, named) !in gates
              && forall k :: k in gates && k.rid == rid ==> k.streamId == s))
    }

    /** Deliver a CREDIT frame's grant to the gate the model picks, and to no other. */
    method GrantFrame(rid: nat, named: Option<string>, credits: nat) returns (delivered: bool)
      requires Valid()
      modifies OfRequest(rid)
      ensures Valid()
      ensures delivered <==> exists s :: IsTarget(rid, named, s)
      ensures forall s :: IsTarget(rid, named, s) ==>
                var g := gates[GateKey(rid, s)];
                g.state == Grant(old(g.state), credits) && g.waiters == []
                && forall other :: other in OfRequest(rid) && other != g ==>
                     other.state == old(other.state) && other.waiters == old(other.waiters)
      ensures !delivered ==>
                forall g :: g in OfRequest(rid) ==> g.state == old(g.state) && g.waiters == old(g.waiters)
    {
      var streams: seq<Option<string>> := [];
      var keys := set k | k in gates && k.rid == rid;
      var todo := keys;
      while todo != {}
        invariant todo <= keys
        invariant forall s :: s in streams <==> GateKey(rid, s) in keys - todo
        invariant |streams| + |todo| == |keys|
        decreases todo
      {
        var k :| k in todo;
        todo := todo - {k};
        assert GateKey(rid, k.streamId) == k;
        streams := streams + [k.streamId];
      }
      assert forall k :: k in keys ==> k == GateKey(rid, k.streamId);
      match GrantTarget(streams, named) {
        case None =>
          forall s | IsTarget(rid, named, s)
            ensures |keys| == 1
          {
            assert keys == {GateKey(rid, s)};
          }
          delivered := false;
        case Some(target) =>
          assert target in streams;
          if target != named {
            OnlyMember(keys, GateKey(rid, target));
          }
          var woken := gates[GateKey(rid, target)].GrantCredits(credits);
          assert IsTarget(rid, named, target);
          delivered := true;
      }
    }
  }

  // ---- Which gates a request's close reaches ---------------------------------------------

  // Gates by identity; a close of a request comes with its cancel and with its end.
  datatype RouterStep = Registers(key: GateKey, gate: nat) | Closes(rid: nat)

  datatype Routing = Routing(gates: map<GateKey, nat>, closed: set<nat>)

  /** The router's two moves, as `Register` and `CloseRequest` make them. */
  function RouterNext(r: Routing, step: RouterStep): Routing {
    match step
    case Registers(key, gate) => r.(gates := r.gates[key := gate])
    case Closes(rid) =>
      var keys := set k | k in r.gates && k.rid == rid;
      Routing(r.gates - keys, r.closed + set k | k in keys :: r.gates[k])
  }

  function Routed(steps: seq<RouterStep>): Routing {
    if steps == [] then Routing(map[], {})
    else RouterNext(Routed(steps[..|steps| - 1]), steps[|steps| - 1])
  }

  /** Neither a close of the request nor another gate under the key. */
  predicate Spares(step: RouterStep, key: GateKey, gate: nat) {
    match step
    case Registers(k, g) => k == key ==> g == gate
    case Closes(rid) => rid != key.rid
  }

  /** Registered at i, and still the key's own gate after n steps. */
  predicate StandsFrom(steps: seq<RouterStep>, i: nat, n: nat, key: GateKey, gate: nat)
    requires i < |steps| && n <= |steps|
  {
    steps[i] == Registers(key, gate) && forall m :: i < m < n ==> Spares(steps[m], key, gate)
  }

  ghost predicate Stands(steps: seq<RouterStep>, n: nat, key: GateKey, gate: nat)
    requires n <= |steps|
  {
    exists i :: 0 <= i < n && StandsFrom(steps, i, n, key, gate)
  }

  lemma StandsSnoc(steps: seq<RouterStep>, n: nat, key: GateKey, gate: nat)
    requires 0 < n <= |steps|
    ensures Stands(steps, n, key, gate)
            <==> steps[n - 1] == Registers(key, gate)
                 || (Stands(steps, n - 1, key, gate) && Spares(steps[n - 1], key, gate))
  {
    var m := n - 1;
    if Stands(steps, m, key, gate) && Spares(steps[m], key, gate) {
      var i :| 0 <= i < m && StandsFrom(steps, i, m, key, gate);
      assert StandsFrom(steps, i, n, key, gate);
    }
    if steps[m] == Registers(key, gate) {
      assert StandsFrom(steps, m, n, key, gate);
    }
    if Stands(steps, n, key, gate) {
      var i :| 0 <= i < n && StandsFrom(steps, i, n, key, gate);
      assert i < m ==> StandsFrom(steps, i, m, key, gate);
    }
  }

  lemma {:induction false} RegisteredIff(steps: seq<RouterStep>, n: nat, key: GateKey, gate: nat)
    requires n <= |steps|
    ensures (key in Routed(steps[..n]).gates && Routed(steps[..n]).gates[key] == gate)
            <==> Stands(steps, n, key, gate)
  {
    if n > 0 {
      RegisteredIff(steps, n - 1, key, gate);
      assert steps[..n][..n - 1] == steps[..n - 1];
      if steps[n - 1] == Registers(key, gate) {
        assert StandsFrom(steps, n - 1, n, key, gate);
      }
      StandsSnoc(steps, n, key, gate);
    }
  }

  /** The gate is the key's own when the request is closed at j. */
  ghost predicate Reached(steps: seq<RouterStep>, j: nat, gate: nat)
    requires j < |steps|
  {
    steps[j].Closes? && exists key: GateKey :: key.rid == steps[j].rid && Stands(steps, j, key, gate)
  }

  /**
    Exactly which gates end up closed: those some close of their request finds
    registered.  A gate registered after the last close of its request, or
    displaced by another under its key before one, stays open; so a cancelled
    handler that only then starts an output can wait for credit for ever.
  */
  lemma {:induction false} ClosedIff(steps: seq<RouterStep>, n: nat, gate: nat)
    requires n <= |steps|
    ensures gate in Routed(steps[..n]).closed <==> exists j :: 0 <= j < n && Reached(steps, j, gate)
  {
    if n > 0 {
      ClosedIff(steps, n - 1, gate);
      assert steps[..n][..n - 1] == steps[..n - 1];
      var before, last := Routed(steps[..n - 1]), steps[n - 1];
      if last.Closes? {
        forall key
          ensures (key in before.gates && before.gates[key] == gate)
                  <==> Stands(steps, n - 1, key, gate)
        {
          RegisteredIff(steps, n - 1, key, gate);
        }
        ClosesReach(steps, n - 1, before, gate);
      }
    }
  }

  lemma ClosesReach(steps: seq<RouterStep>, j: nat, before: Routing, gate: nat)
    requires j < |steps| && steps[j].Closes?
    requires forall key :: (key in before.gates && before.gates[key] == gate)
                           <==> Stands(steps, j, key, gate)
    ensures gate in RouterNext(before, steps[j]).closed <==> gate in before.closed || Reached(steps, j, gate)
  {
    hide Stands;
    var keys := set k | k in before.gates && k.rid == steps[j].rid;
    var closing := set k | k in keys :: before.gates[k];
    if gate in closing {
      var key :| key in keys && before.gates[key] == gate;
      assert Reached(steps, j, gate);
    }
    if Reached(steps, j, gate) {
      var key: GateKey :| key.rid == steps[j].rid && Stands(steps, j, key, gate);
      assert key in keys;
    }
  }

  /** The smallest failing run: the cancel closes nothing yet, and the gate registered behind it stays open. */
  lemma StartAfterCancel(key: GateKey, gate: nat)
    ensures var r := Routed([Closes(key.rid), Registers(key, gate)]);
            r.closed == {} && r.gates == map[key := gate]
  {
    var steps := [Closes(key.rid), Registers(key, gate)];
    assert steps[..1] == [Closes(key.rid)] && steps[..1][..0] == [];
    assert Routed(steps[..1]).closed == {};
    assert Routed(steps[..1]).gates == map[];
  }

  lemma OnlyMember<T>(s: set<T>, x: T)
    requires x in s && |s| == 1
    ensures forall y :: y in s ==> y == x
  {
    assert |s - {x}| == 0;
  }

  // ---- A window that is only consumed ----------------------------------------------------------

  /** n chunks consumed one after the other: the window, and the grants due on the way. */
  function Consumed(w: Window, n: nat): (Window, seq<nat>) {
    if n == 0 then (w, [])
    else
      var (before, grants) := Consumed(w, n - 1);
      var after := Consume(before);
      (after.window, if after.grant > 0 then grants + [after.grant] else grants)
  }

  /** Credits go back half a window at a time, one by one for a window under four, and the rest is pending. */
  lemma {:induction false} GrantsAreHalves(w: nat, n: nat)
    ensures var (after, grants) := Consumed(WindowOpened(w), n);
            var half := if w < 4 then 1 else w / 2;
            (forall i :: 0 <= i < |grants| ==> grants[i] == half) && after.batch == half
            && n == |grants| * half + after.pending && after.pending < half
            && after.remaining == w + |grants| * half
  {
    if n > 0 {
      GrantsAreHalves(w, n - 1);
      var (before, grants) := Consumed(WindowOpened(w), n - 1);
      var half := if w < 4 then 1 else w / 2;
      assert (|grants| + 1) * half == |grants| * half + half;
    }
  }
}
