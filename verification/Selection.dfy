/**
  Which candidate serves a request: the host's sort, the runtime's scan and the
  selection they both stand for.

  Whether a candidate can serve the request, and how specific it is, are taken as
  given.
*/
module Selection {
  import opened Wrappers

  datatype Candidate = Candidate(id: nat, dispatchable: bool, specificity: nat)

  // ---- The selection ----------------------------------------------------------------------------

  datatype Key = Key(generic: nat, distance: nat)

  /** Refinements before fallbacks, and the nearer first. */
  function RankingKey(c: Candidate, request: nat): Key {
    if request <= c.specificity then Key(0, c.specificity - request) else Key(1, request - c.specificity)
  }

  predicate BetterKey(a: Key, b: Key) {
    a.generic < b.generic || (a.generic == b.generic && a.distance < b.distance)
  }

  function SelectStep(best: Option<Candidate>, c: Candidate, request: nat): Option<Candidate> {
    if !c.dispatchable then best
    else if best.None? || BetterKey(RankingKey(c, request), RankingKey(best.value, request)) then Some(c)
    else best
  }

  function Select(candidates: seq<Candidate>, request: nat): Option<Candidate> {
    if candidates == [] then None
    else SelectStep(Select(candidates[..|candidates| - 1], request), candidates[|candidates| - 1], request)
  }

  /**
    In numbers: one as specific as the request or more beats any that is less; of two
    that are, the less specific wins, and of two that are not, the more specific.
  */
  predicate Beats(d: Candidate, c: Candidate, request: nat) {
    (d.specificity >= request && c.specificity < request)
    || (request <= d.specificity < c.specificity) || (c.specificity < d.specificity < request)
  }

  lemma BeatsIffBetter(d: Candidate, c: Candidate, request: nat)
    ensures Beats(d, c, request) <==> BetterKey(RankingKey(d, request), RankingKey(c, request))
  {
  }

  /** A dispatchable candidate that no dispatchable candidate beats. */
  ghost predicate Best(candidates: seq<Candidate>, request: nat, c: Candidate) {
    c in candidates && c.dispatchable
    && forall d :: d in candidates && d.dispatchable ==> !Beats(d, c, request)
  }

  /** The i-th candidate is a best one, and the first of those as specific. */
  ghost predicate FirstBest(candidates: seq<Candidate>, request: nat, i: nat) {
    i < |candidates| && Best(candidates, request, candidates[i])
    && forall j :: 0 <= j < i && candidates[j].dispatchable ==> candidates[j].specificity != candidates[i].specificity
  }

  /** The selection: the first of the best, or nobody when none can serve. */
  lemma {:induction false} SelectIsBest(candidates: seq<Candidate>, request: nat)
    ensures match Select(candidates, request)
            case None => forall d :: d in candidates ==> !d.dispatchable
            case Some(c) => exists i: nat :: FirstBest(candidates, request, i) && candidates[i] == c
  {
    if candidates != [] {
      var n := |candidates| - 1;
      var before, last := candidates[..n], candidates[n];
      SelectIsBest(before, request);
      assert candidates == before + [last];
      assert forall d :: d in candidates <==> d in before || d == last;
      hide RankingKey, BetterKey;
      match Select(before, request)
      case None =>
        assert last.dispatchable ==> FirstBest(candidates, request, n);
      case Some(c) =>
        var i: nat :| FirstBest(before, request, i) && before[i] == c;
        BeatsIffBetter(last, c, request);
        if last.dispatchable && Beats(last, c, request) {
          assert FirstBest(candidates, request, n);
        } else {
          assert FirstBest(candidates, request, i);
        }
    }
  }

  lemma SelectedIsBest(candidates: seq<Candidate>, request: nat)
    requires Select(candidates, request).Some?
    ensures Best(candidates, request, Select(candidates, request).value)
  {
    SelectIsBest(candidates, request);
  }

  lemma OrderIsFree(candidates: seq<Candidate>, other: seq<Candidate>, request: nat)
    requires multiset(candidates) == multiset(other)
    ensures Select(candidates, request).Some? <==> Select(other, request).Some?
    ensures Select(candidates, request).Some? ==>
              RankingKey(Select(candidates, request).value, request)
              == RankingKey(Select(other, request).value, request)
  {
    SelectIsBest(candidates, request);
    SelectIsBest(other, request);
    forall d, c
      ensures Beats(d, c, request) <==> BetterKey(RankingKey(d, request), RankingKey(c, request))
    {
      BeatsIffBetter(d, c, request);
    }
    assert forall c :: c in candidates <==> c in multiset(candidates);
    assert forall c :: c in other <==> c in multiset(other);
  }

  // ---- By signed distance ------------------------------------------------------------------------

  function Abs(d: int): nat {
    if d < 0 then -d else d
  }

  function SignedDistance(c: Candidate, request: nat): int {
    c.specificity - request
  }

  /** The host's order on signed distances. */
  predicate Precedes(a: int, b: int) {
    if a >= 0 && b < 0 then true else if a < 0 && b >= 0 then false else Abs(a) < Abs(b)
  }

  /** It is the order of the ranking keys. */
  lemma PrecedesIffBetter(a: Candidate, b: Candidate, request: nat)
    ensures Precedes(SignedDistance(a, request), SignedDistance(b, request)) <==> Beats(a, b, request)
    ensures Beats(a, b, request) <==> BetterKey(RankingKey(a, request), RankingKey(b, request))
  {
    BeatsIffBetter(a, b, request);
  }

  // ---- The two searches -----------------------------------------------------------------------------

  /** The runtime: keep the best so far unless the candidate dominates it. */
  method FindHandlerWithPattern(handlers: seq<Candidate>, request: nat) returns (best: Option<Candidate>)
    ensures best == Select(handlers, request)
  {
    best := None;
    assert handlers[..0] == [];
    for i := 0 to |handlers|
      invariant best == Select(handlers[..i], request)
    {
      var c := handlers[i];
      assert handlers[..i + 1][..i] == handlers[..i];
      if c.dispatchable {
        var signedDistance := c.specificity - request;
        var dominated := false;
        if best.Some? {
          var current := best.value.specificity - request;
          PrecedesIffBetter(c, best.value, request);
          if current >= 0 && signedDistance < 0 {
            dominated := true;
          } else if current < 0 && signedDistance >= 0 {
            dominated := false;
          } else {
            dominated := Abs(current) <= Abs(signedDistance);
          }
        }
        if !dominated {
          best := Some(c);
        }
      }
    }
    assert handlers[..|handlers|] == handlers;
  }

  /** The host: sort the matches and take the first, whichever of equals a sort puts there. */
  method FindCartridgeForCap(capTable: seq<Candidate>, request: nat) returns (found: Option<Candidate>)
    ensures found.None? <==> forall c :: c in capTable ==> !c.dispatchable
    ensures found.Some? ==> Best(capTable, request, found.value)
    ensures found.Some? <==> Select(capTable, request).Some?
    ensures found.Some? ==>
              RankingKey(found.value, request) == RankingKey(Select(capTable, request).value, request)
  {
    var matches: seq<Candidate> := [];
    for i := 0 to |capTable|
      invariant forall c :: c in matches <==> c in capTable[..i] && c.dispatchable
    {
      assert capTable[..i + 1] == capTable[..i] + [capTable[i]];
      if capTable[i].dispatchable {
        matches := matches + [capTable[i]];
      }
    }
    assert capTable[..|capTable|] == capTable;
    SelectIsBest(capTable, request);
    if |matches| == 0 {
      return None;
    }
    assert matches[0] in matches;
    SelectedIsBest(capTable, request);
    var first := FirstInOrder(matches, request, Select(capTable, request).value);
    found := Some(first);
  }

  /** Some match that no other precedes: what any sort by that order puts first. */
  method FirstInOrder(matches: seq<Candidate>, request: nat, ghost least: Candidate) returns (first: Candidate)
    requires least in matches && Best(matches, request, least)
    requires forall c :: c in matches ==> c.dispatchable
    ensures Best(matches, request, first)
  {
    forall c | c in matches
      ensures !Precedes(SignedDistance(c, request), SignedDistance(least, request))
    {
      PrecedesIffBetter(c, least, request);
    }
    first :| first in matches
      && forall c :: c in matches ==> !Precedes(SignedDistance(c, request), SignedDistance(first, request));
    forall c | c in matches
      ensures !Beats(c, first, request)
    {
      PrecedesIffBetter(c, first, request);
    }
  }
}
