/**
  Transfers assembled from chunks at stated offsets, in memory.

  The assembler counts how far chunks have reached, not what they have covered,
  so an end that overtakes other chunks is taken for the whole.  The theorems say
  exactly when that loses data.
*/
module ChunkAssembly {
  import opened CborCodec
  import opened Wrappers

  // `seqNo` 0 is the first chunk; only it states the whole length.
  datatype Chunk = Chunk(seqNo: nat, length: Option<nat>, offset: nat, payload: seq<byte>, eof: bool)

  datatype Assembly = Assembly(buffer: seq<byte>, expected: Option<nat>, received: nat, complete: bool)

  const Nothing := Assembly([], None, 0, false)

  function Zeros(n: nat): seq<byte> {
    seq(n, _ => 0)
  }

  /** The buffer with a payload written over it, grown with zeros if it is too short. */
  function Written(buffer: seq<byte>, offset: nat, payload: seq<byte>): (b: seq<byte>)
    ensures |b| == Max(|buffer|, offset + |payload|)
  {
    var end := offset + |payload|;
    var grown := if |buffer| < end then buffer + Zeros(end - |buffer|) else buffer;
    grown[..offset] + payload + grown[end..]
  }

  function Started(a: Assembly, c: Chunk): Assembly {
    if c.seqNo == 0 && c.length.Some? then a.(expected := c.length, received := 0) else a
  }

  function Added(a: Assembly, c: Chunk): Assembly {
    var s := Started(a, c);
    s.(buffer := Written(s.buffer, c.offset, c.payload), received := Max(s.received, c.offset + |c.payload|),
       complete := s.complete || c.eof)
  }

  predicate IsComplete(a: Assembly) {
    a.complete && (a.expected.None? || a.received >= a.expected.value)
  }

  /** The chunks of one transfer in order of arrival, until it is done. */
  function Receive(a: Assembly, chunks: seq<Chunk>): Option<seq<byte>>
    decreases |chunks|
  {
    if chunks == [] then None
    else
      var next := Added(a, chunks[0]);
      if IsComplete(next) then Some(next.buffer[..Min(next.received, |next.buffer|)]) else Receive(next, chunks[1..])
  }

  // ---- Transfers ---------------------------------------------------------------------------------------

  predicate PartOf(data: seq<byte>, c: Chunk) {
    c.offset + |c.payload| <= |data| && c.payload == data[c.offset..c.offset + |c.payload|]
    && c.length == (if c.seqNo == 0 then Some(|data|) else None)
    && (c.eof ==> c.offset + |c.payload| == |data|)
  }

  predicate Covers(c: Chunk, i: nat) {
    c.offset <= i < c.offset + |c.payload|
  }

  predicate Covered(chunks: seq<Chunk>, i: nat) {
    exists j :: 0 <= j < |chunks| && Covers(chunks[j], i)
  }

  /** Every byte written so far is the transfer's own, and every other is still zero. */
  ghost predicate Faithful(data: seq<byte>, seen: seq<Chunk>, buffer: seq<byte>) {
    |buffer| <= |data|
    && forall i :: 0 <= i < |buffer| ==> buffer[i] == if Covered(seen, i) then data[i] else 0
  }

  lemma CoveredSnoc(seen: seq<Chunk>, c: Chunk, i: nat)
    ensures Covered(seen + [c], i) <==> Covered(seen, i) || Covers(c, i)
  {
    var all := seen + [c];
    assert all[|seen|] == c;
    if j :| 0 <= j < |seen| && Covers(seen[j], i) {
      assert Covers(all[j], i);
    }
  }

  lemma WrittenFaithful(data: seq<byte>, seen: seq<Chunk>, buffer: seq<byte>, c: Chunk)
    requires Faithful(data, seen, buffer) && PartOf(data, c)
    requires forall i :: |buffer| <= i ==> !Covered(seen, i)
    ensures Faithful(data, seen + [c], Written(buffer, c.offset, c.payload))
    ensures forall i :: |Written(buffer, c.offset, c.payload)| <= i ==> !Covered(seen + [c], i)
  {
    var after := Written(buffer, c.offset, c.payload);
    forall i | 0 <= i < |after|
      ensures after[i] == if Covered(seen + [c], i) then data[i] else 0
    {
      CoveredSnoc(seen, c, i);
    }
    forall i | |after| <= i
      ensures !Covered(seen + [c], i)
    {
      CoveredSnoc(seen, c, i);
    }
  }

  /** Chunks before the end chunk only fill the buffer; the end chunk hands it on. */
  lemma {:induction false} ReceiveRest(data: seq<byte>, seen: seq<Chunk>, a: Assembly, rest: seq<Chunk>, end: Chunk,
                                       after: seq<Chunk>)
    requires Faithful(data, seen, a.buffer) && (forall i :: |a.buffer| <= i ==> !Covered(seen, i))
    requires (a.expected.Some? ==> a.expected.value == |data|) && a.received <= |a.buffer| && !a.complete
    requires forall i :: 0 <= i < |rest| ==> PartOf(data, rest[i]) && !rest[i].eof
    requires PartOf(data, end) && end.eof
    ensures Receive(a, rest + [end] + after).Some?
    ensures var got := Receive(a, rest + [end] + after).value;
            |got| == |data| && Faithful(data, seen + rest + [end], got)
    decreases |rest|
  {
    var all := rest + [end] + after;
    var next := Added(a, all[0]);
    WrittenFaithful(data, seen, a.buffer, all[0]);
    if rest == [] {
      assert seen + rest + [end] == seen + [end];
      assert next.buffer[..|data|] == next.buffer;
    } else {
      assert all[1..] == rest[1..] + [end] + after;
      assert !IsComplete(next);
      ReceiveRest(data, seen + [all[0]], next, rest[1..], end, after);
      assert seen + [all[0]] + rest[1..] + [end] == seen + rest + [end];
    }
  }

  /**
    A transfer ends with its end chunk, whatever has or has not come before, the
    first chunk included; and what it then hands on is the data exactly if every
    byte that no chunk had brought by then is zero in the data as well.
  */
  lemma EndDecides(data: seq<byte>, before: seq<Chunk>, end: Chunk, after: seq<Chunk>)
    requires forall i :: 0 <= i < |before| ==> PartOf(data, before[i]) && !before[i].eof
    requires PartOf(data, end) && end.eof
    ensures var got := Receive(Nothing, before + [end] + after);
            got.Some? && |got.value| == |data|
            && (got.value == data <==>
                  forall i :: 0 <= i < |data| && !Covered(before + [end], i) ==> data[i] == 0)
  {
    ReceiveRest(data, [], Nothing, before, end, after);
    assert [] + before + [end] == before + [end];
    var got := Receive(Nothing, before + [end] + after).value;
    assert forall i :: 0 <= i < |data| ==> (got[i] == data[i] <==> Covered(before + [end], i) || data[i] == 0);
  }

  /** So with everything there before the end, in any order and however it overlaps, the transfer is exact. */
  lemma CompleteTransfer(data: seq<byte>, before: seq<Chunk>, end: Chunk)
    requires forall i :: 0 <= i < |before| ==> PartOf(data, before[i]) && !before[i].eof
    requires PartOf(data, end) && end.eof
    requires forall i :: 0 <= i < |data| ==> Covered(before + [end], i)
    ensures Receive(Nothing, before + [end]) == Some(data)
  {
    EndDecides(data, before, end, []);
    assert before + [end] + [] == before + [end];
  }

  // ---- The object ---------------------------------------------------------------------------------------

  class ChunkAssembler {
    var streams: map<nat, Assembly>

    constructor ()
      ensures streams == map[]
    {
      streams := map[];
    }

    /** One chunk of one transfer: the data once it is done, and then nothing is kept of it. */
    method ProcessChunk(id: nat, c: Chunk) returns (data: Option<seq<byte>>)
      modifies this
      ensures var next := Added(if id in old(streams) then old(streams)[id] else Nothing, c);
              if IsComplete(next) then
                data == Some(next.buffer[..Min(next.received, |next.buffer|)]) && streams == old(streams) - {id}
              else data == None && streams == old(streams)[id := next]
    {
      var a := if id in streams then streams[id] else Nothing;
      if c.seqNo == 0 && c.length.Some? {
        a := a.(expected := c.length, received := 0);
      }
      var end := c.offset + |c.payload|;
      var buffer := a.buffer;
      if |buffer| < end {
        buffer := buffer + Zeros(end - |buffer|);
      }
      buffer := buffer[..c.offset] + c.payload + buffer[end..];
      a := a.(buffer := buffer, received := Max(a.received, end));
      if c.eof {
        a := a.(complete := true);
      }
      if a.complete && (a.expected.None? || a.received >= a.expected.value) {
        streams := streams - {id};
        return Some(a.buffer[..Min(a.received, |a.buffer|)]);
      }
      streams := streams[id := a];
      return None;
    }
  }
}
