/**
  What any run of chunks amounts to, honest or not: when a transfer is taken to be
  done, and what is then handed on.
*/
module Transfers {
  import opened CborCodec
  import opened ChunkAssembly
  import opened Wrappers

  /** A chunk that says how long the transfer is, and starts the count anew. */
  predicate Opens(c: Chunk) {
    c.seqNo == 0 && c.length.Some?
  }

  function End(c: Chunk): nat {
    c.offset + |c.payload|
  }

  function AddAll(chunks: seq<Chunk>): Assembly {
    if chunks == [] then Nothing else Added(AddAll(chunks[..|chunks| - 1]), chunks[|chunks| - 1])
  }

  /** The place of the last chunk that opens, or the start if none does. */
  predicate OpenedAt(chunks: seq<Chunk>, from: nat) {
    (from == 0 || (from < |chunks| && Opens(chunks[from])))
    && forall i :: from < i < |chunks| ==> !Opens(chunks[i])
  }

  /** How far the chunks from some place on have reached. */
  ghost predicate Reached(chunks: seq<Chunk>, from: nat, n: nat) {
    (forall i :: from <= i < |chunks| ==> End(chunks[i]) <= n)
    && (n == 0 || exists i :: from <= i < |chunks| && End(chunks[i]) == n)
  }

  /** The byte the last chunk to cover the place put there. */
  function LastByte(chunks: seq<Chunk>, p: nat): byte {
    if chunks == [] then 0
    else
      var last := chunks[|chunks| - 1];
      if last.offset <= p < End(last) then last.payload[p - last.offset] else LastByte(chunks[..|chunks| - 1], p)
  }

  predicate HasEof(chunks: seq<Chunk>) {
    exists i :: 0 <= i < |chunks| && chunks[i].eof
  }

  /** The length in force at the end. */
  function Declared(chunks: seq<Chunk>, from: nat): Option<nat> {
    if from < |chunks| && Opens(chunks[from]) then chunks[from].length else None
  }

  /** What the assembly holds, read off the chunks. */
  ghost predicate Holds(chunks: seq<Chunk>, from: nat, a: Assembly) {
    OpenedAt(chunks, from) && (a.complete <==> HasEof(chunks)) && a.expected == Declared(chunks, from)
    && Reached(chunks, from, a.received) && Reached(chunks, 0, |a.buffer|)
    && forall p :: 0 <= p < |a.buffer| ==> a.buffer[p] == LastByte(chunks, p)
  }

  lemma ReachedSnoc(before: seq<Chunk>, c: Chunk, from: nat, n: nat)
    requires Reached(before, from, n) && from <= |before|
    ensures Reached(before + [c], from, Max(n, End(c)))
  {
    var all := before + [c];
    assert all[|before|] == c;
    if n > End(c) {
      var i :| from <= i < |before| && End(before[i]) == n;
      assert all[i] == before[i];
    }
  }

  lemma OneReaches(before: seq<Chunk>, c: Chunk)
    ensures Reached(before + [c], |before|, End(c))
  {
    assert (before + [c])[|before|] == c;
  }

  lemma WrittenBytes(before: seq<Chunk>, c: Chunk, buffer: seq<byte>)
    requires forall p :: 0 <= p < |buffer| ==> buffer[p] == LastByte(before, p)
    requires Reached(before, 0, |buffer|)
    ensures var after := Written(buffer, c.offset, c.payload);
            forall p :: 0 <= p < |after| ==> after[p] == LastByte(before + [c], p)
  {
    var after := Written(buffer, c.offset, c.payload);
    assert (before + [c])[..|before|] == before;
    forall p | 0 <= p < |after|
      ensures after[p] == LastByte(before + [c], p)
    {
      if p >= |buffer| {
        NothingThere(before, |buffer|, p);
      }
    }
  }

  lemma {:induction false} NothingThere(chunks: seq<Chunk>, n: nat, p: nat)
    requires (forall i :: 0 <= i < |chunks| ==> End(chunks[i]) <= n) && n <= p
    ensures LastByte(chunks, p) == 0
  {
    if chunks != [] {
      NothingThere(chunks[..|chunks| - 1], n, p);
    }
  }

  /**
    After any chunks: the length is what the last one to open said; the count is how far
    the chunks since then reach; and each byte is that of the last chunk to cover its
    place, or zero.
  */
  lemma {:induction false} AssemblyHolds(chunks: seq<Chunk>) returns (from: nat)
    ensures Holds(chunks, from, AddAll(chunks))
  {
    if chunks == [] {
      from := 0;
    } else {
      var before, c := chunks[..|chunks| - 1], chunks[|chunks| - 1];
      assert chunks == before + [c];
      var was := AssemblyHolds(before);
      from := if Opens(c) then |before| else was;
      HoldsSnoc(before, was, AddAll(before), c);
    }
  }

  lemma HoldsSnoc(before: seq<Chunk>, was: nat, a: Assembly, c: Chunk)
    requires Holds(before, was, a)
    ensures Holds(before + [c], if Opens(c) then |before| else was, Added(a, c))
  {
    hide Written, LastByte, Reached, HasEof;
    OpenedSnoc(before, was, c);
    EofSnoc(before, c);
    WrittenBytes(before, c, a.buffer);
    ReachedSnoc(before, c, 0, |a.buffer|);
    if Opens(c) {
      OneReaches(before, c);
    } else {
      ReachedSnoc(before, c, was, a.received);
    }
    hide OpenedAt, Declared;
  }

  lemma OpenedSnoc(before: seq<Chunk>, was: nat, c: Chunk)
    requires OpenedAt(before, was)
    ensures var from := if Opens(c) then |before| else was;
            OpenedAt(before + [c], from) && was <= |before|
            && Declared(before + [c], from) == if Opens(c) then c.length else Declared(before, was)
  {
    var all := before + [c];
    assert all[|before|] == c && forall i :: 0 <= i < |before| ==> all[i] == before[i];
  }

  lemma EofSnoc(before: seq<Chunk>, c: Chunk)
    ensures HasEof(before + [c]) <==> HasEof(before) || c.eof
  {
    var all := before + [c];
    assert all[|before|] == c;
    if i :| 0 <= i < |before| && before[i].eof {
      assert all[i].eof;
    }
  }

  /** A whole transfer: one chunk was marked the end, and those since the last to open reach what it declared. */
  ghost predicate Done(chunks: seq<Chunk>, from: nat, reach: nat) {
    HasEof(chunks) && OpenedAt(chunks, from) && Reached(chunks, from, reach)
    && (Declared(chunks, from).Some? ==> reach >= Declared(chunks, from).value)
  }

  ghost predicate IsWhole(chunks: seq<Chunk>) {
    exists from: nat, reach: nat :: Done(chunks, from, reach)
  }

  lemma OpenedOnce(chunks: seq<Chunk>, m: nat, n: nat, mReach: nat, nReach: nat)
    requires OpenedAt(chunks, m) && OpenedAt(chunks, n) && Reached(chunks, m, mReach) && Reached(chunks, n, nReach)
    requires chunks != []
    ensures m == n && mReach == nReach
  {
  }

  lemma CompleteIff(chunks: seq<Chunk>)
    requires chunks != []
    ensures IsComplete(AddAll(chunks)) <==> IsWhole(chunks)
  {
    var from := AssemblyHolds(chunks);
    var a := AddAll(chunks);
    hide Reached, HasEof, OpenedAt, LastByte;
    if IsComplete(a) {
      assert Done(chunks, from, a.received);
    }
    if m: nat, reach: nat :| Done(chunks, m, reach) {
      OpenedOnce(chunks, m, from, reach, a.received);
    }
  }

  lemma {:induction false} ReceiveOn(before: seq<Chunk>, rest: seq<Chunk>)
    ensures Receive(AddAll(before), rest)
         == if rest == [] then None
            else
              var next := AddAll(before + [rest[0]]);
              if IsComplete(next) then Some(next.buffer[..Min(next.received, |next.buffer|)])
              else Receive(AddAll(before + [rest[0]]), rest[1..])
  {
    if rest != [] {
      assert (before + [rest[0]])[..|before|] == before;
    }
  }

  /** The transfer is not done before its n-th chunk. */
  ghost predicate NotBefore(chunks: seq<Chunk>, n: nat)
    requires n <= |chunks|
  {
    forall m :: 0 < m < n ==> !IsWhole(chunks[..m])
  }

  lemma {:induction false} ReceiveReaches(chunks: seq<Chunk>, k: nat, n: nat)
    requires k < n <= |chunks| && NotBefore(chunks, n)
    ensures Receive(Nothing, chunks) == Receive(AddAll(chunks[..k]), chunks[k..])
    decreases k
  {
    hide Receive, IsWhole;
    if k == 0 {
      assert chunks[..0] == [] && chunks[0..] == chunks;
    } else {
      ReceiveReaches(chunks, k - 1, n);
      ReceiveOn(chunks[..k - 1], chunks[k - 1..]);
      assert chunks[..k - 1] + [chunks[k - 1..][0]] == chunks[..k];
      assert chunks[k - 1..][1..] == chunks[k..];
      CompleteIff(chunks[..k]);
    }
  }

  /**
    A transfer is done with the first chunk that makes it whole, and what is handed on
    reaches as far as its chunks since the last to open, each byte that of the last
    chunk to cover it.
  */
  lemma TransferIs(chunks: seq<Chunk>, n: nat, from: nat, reach: nat)
    requires 0 < n <= |chunks| && NotBefore(chunks, n) && Done(chunks[..n], from, reach)
    ensures var got := Receive(Nothing, chunks);
            got.Some? && |got.value| == reach && forall p :: 0 <= p < reach ==> got.value[p] == LastByte(chunks[..n], p)
  {
    hide Receive, LastByte, AddAll, HasEof, NotBefore;
    var cs := chunks[..n];
    assert IsWhole(cs);
    ReceiveReaches(chunks, n - 1, n);
    ReceiveOn(chunks[..n - 1], chunks[n - 1..]);
    assert chunks[..n - 1] + [chunks[n - 1..][0]] == cs;
    CompleteIff(cs);
    var at := AssemblyHolds(cs);
    OpenedOnce(cs, at, from, AddAll(cs).received, reach);
    ReachWithin(cs, from, reach, |AddAll(cs).buffer|);
    hide Reached, OpenedAt;
  }

  lemma ReachWithin(chunks: seq<Chunk>, from: nat, reach: nat, all: nat)
    requires Reached(chunks, from, reach) && Reached(chunks, 0, all)
    ensures reach <= all
  {
  }

  /** And chunks that never make a whole transfer hand on nothing. */
  lemma NeverDone(chunks: seq<Chunk>)
    requires NotBefore(chunks, |chunks|) && (chunks != [] ==> !IsWhole(chunks))
    ensures Receive(Nothing, chunks).None?
  {
    hide AddAll, IsWhole, IsComplete, NotBefore;
    if chunks != [] {
      var k := |chunks| - 1;
      ReceiveReaches(chunks, k, |chunks|);
      ReceiveOn(chunks[..k], chunks[k..]);
      assert chunks[..k] + [chunks[k..][0]] == chunks && chunks[k..][1..] == [];
      ReceiveOn(chunks, []);
      CompleteIff(chunks);
    }
  }
}
