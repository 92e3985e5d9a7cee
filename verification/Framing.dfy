/**
  Frames on a byte stream: a four-byte big-endian length, then that many bytes.

  The reader sees the stream in whatever pieces the channel hands it.
*/
module Framing {
  import opened CborCodec
  import opened Wrappers

  const MAX_FRAME_HARD_LIMIT: nat := 16 * 1024 * 1024

  type Payload = seq<byte>

  predicate Fits(n: nat, maxFrame: nat) {
    n <= maxFrame && n <= MAX_FRAME_HARD_LIMIT
  }

  function Framed(p: Payload): (bs: seq<byte>)
    requires |p| < 0x1_0000_0000
    ensures |bs| == 4 + |p|
  {
    BigEndian(|p|, 4) + p
  }

  predicate AllFit(ps: seq<Payload>, maxFrame: nat) {
    forall i :: 0 <= i < |ps| ==> Fits(|ps[i]|, maxFrame)
  }

  /** What a writer puts on the stream for the payloads, in order. */
  function Stream(ps: seq<Payload>, maxFrame: nat): seq<byte>
    requires AllFit(ps, maxFrame)
  {
    if ps == [] then [] else Framed(ps[0]) + Stream(ps[1..], maxFrame)
  }

  datatype Extracted = Frame(payload: Payload, rest: seq<byte>) | Incomplete | TooLarge

  function Extract(buffer: seq<byte>, maxFrame: nat): Extracted {
    if |buffer| < 4 then Incomplete
    else
      var length := FromBigEndian(buffer[..4]);
      if !Fits(length, maxFrame) then TooLarge
      else if |buffer| < 4 + length then Incomplete
      else Frame(buffer[4..4 + length], buffer[4 + length..])
  }

  // ---- One extraction -----------------------------------------------------------------------------

  lemma {:induction false} LengthReads(p: Payload, more: seq<byte>)
    requires |p| < 0x1_0000_0000
    ensures var bs := Framed(p) + more;
            bs[..4] == BigEndian(|p|, 4) && FromBigEndian(bs[..4]) == |p|
            && bs[4..4 + |p|] == p && bs[4 + |p|..] == more
  {
    hide BigEndian, FromBigEndian, Pow256;
    var head := BigEndian(|p|, 4);
    Pow256Values();
    BigEndianInverts(|p|, 4);
  }

  /** A frame comes off whole, whatever is behind it; short of one byte of it, nothing does. */
  lemma ExtractsFirst(p: Payload, more: seq<byte>, maxFrame: nat)
    requires Fits(|p|, maxFrame)
    ensures Extract(Framed(p) + more, maxFrame) == Frame(p, more)
  {
    LengthReads(p, more);
  }

  lemma ExtractsNothing(p: Payload, k: nat, maxFrame: nat)
    requires Fits(|p|, maxFrame) && k < |Framed(p)|
    ensures Extract(Framed(p)[..k], maxFrame) == Incomplete
  {
    if k >= 4 {
      LengthReads(p, []);
      assert Framed(p) + [] == Framed(p);
      assert Framed(p)[..k][..4] == Framed(p)[..4];
    }
  }

  // ---- Any segmentation ----------------------------------------------------------------------------

  datatype Action = Append(bytes: seq<byte>) | Take

  // `out` is what was handed on to be decoded; `failed` a length over the limit.
  datatype Reader = Reader(buffer: seq<byte>, out: seq<Payload>, failed: bool)

  const Opened := Reader([], [], false)

  function Act(r: Reader, a: Action, maxFrame: nat): Reader {
    match a
    case Append(bytes) => r.(buffer := r.buffer + bytes)
    case Take =>
      match Extract(r.buffer, maxFrame)
      case Frame(payload, rest) => r.(buffer := rest, out := r.out + [payload])
      case Incomplete => r
      case TooLarge => r.(failed := true)
  }

  function Acts(actions: seq<Action>, maxFrame: nat): Reader {
    if actions == [] then Opened
    else Act(Acts(actions[..|actions| - 1], maxFrame), actions[|actions| - 1], maxFrame)
  }

  /** Everything appended, in order. */
  function Appended(actions: seq<Action>): seq<byte> {
    if actions == [] then []
    else
      var last := actions[|actions| - 1];
      Appended(actions[..|actions| - 1]) + if last.Append? then last.bytes else []
  }

  lemma {:induction false} StreamAppend(a: seq<Payload>, b: seq<Payload>, maxFrame: nat)
    requires AllFit(a, maxFrame) && AllFit(b, maxFrame)
    ensures AllFit(a + b, maxFrame) && Stream(a + b, maxFrame) == Stream(a, maxFrame) + Stream(b, maxFrame)
    decreases |a|
  {
    if a == [] {
      assert a + b == b;
    } else {
      StreamAppend(a[1..], b, maxFrame);
      assert (a + b)[1..] == a[1..] + b;
    }
  }

  /** Payloads out so far are the first ones, and the buffer is the rest of what came. */
  ghost predicate InStep(r: Reader, appended: seq<byte>, ps: seq<Payload>, maxFrame: nat)
    requires AllFit(ps, maxFrame)
  {
    !r.failed && |r.out| <= |ps| && r.out == ps[..|r.out|]
    && appended == Stream(ps[..|r.out|], maxFrame) + r.buffer
  }

  lemma Remaining(ps: seq<Payload>, n: nat, buffer: seq<byte>, maxFrame: nat)
    requires AllFit(ps, maxFrame) && n <= |ps|
    requires Prefix(Stream(ps[..n], maxFrame) + buffer, Stream(ps, maxFrame))
    ensures Prefix(buffer, Stream(ps[n..], maxFrame))
  {
    StreamAppend(ps[..n], ps[n..], maxFrame);
    assert ps == ps[..n] + ps[n..];
    var head, tail := Stream(ps[..n], maxFrame), Stream(ps[n..], maxFrame);
    assert (head + buffer)[|head|..] == buffer;
    assert (head + tail)[..|head + buffer|][|head|..] == tail[..|buffer|];
  }

  /** What an extraction finds: the next payload exactly when all of its frame is there. */
  lemma NextIsExtracted(ps: seq<Payload>, n: nat, buffer: seq<byte>, maxFrame: nat)
    requires AllFit(ps, maxFrame) && n <= |ps| && Prefix(buffer, Stream(ps[n..], maxFrame))
    ensures if n < |ps| && |buffer| >= 4 + |ps[n]|
            then Extract(buffer, maxFrame) == Frame(ps[n], buffer[4 + |ps[n]|..])
                 && buffer == Framed(ps[n]) + buffer[4 + |ps[n]|..]
            else Extract(buffer, maxFrame) == Incomplete
  {
    if n < |ps| {
      var first := Framed(ps[n]);
      var all := Stream(ps[n..], maxFrame);
      assert all == first + Stream(ps[n..][1..], maxFrame);
      if |buffer| >= |first| {
        assert buffer[..|first|] == all[..|first|] == first;
        assert buffer == first + buffer[|first|..];
        ExtractsFirst(ps[n], buffer[|first|..], maxFrame);
      } else {
        assert buffer == first[..|buffer|];
        ExtractsNothing(ps[n], |buffer|, maxFrame);
      }
    } else {
      assert ps[n..] == [];
    }
  }

  lemma TakeInStep(r: Reader, appended: seq<byte>, ps: seq<Payload>, maxFrame: nat)
    requires AllFit(ps, maxFrame) && InStep(r, appended, ps, maxFrame)
    requires Prefix(appended, Stream(ps, maxFrame))
    ensures InStep(Act(r, Take, maxFrame), appended, ps, maxFrame)
  {
    hide Extract, Framed, Stream;
    var n := |r.out|;
    Remaining(ps, n, r.buffer, maxFrame);
    NextIsExtracted(ps, n, r.buffer, maxFrame);
    if n < |ps| && |r.buffer| >= 4 + |ps[n]| {
      var rest := r.buffer[4 + |ps[n]|..];
      StreamNext(ps, n, maxFrame);
      assert Stream(ps[..n], maxFrame) + (Framed(ps[n]) + rest) == Stream(ps[..n + 1], maxFrame) + rest;
      assert ps[..n + 1] == ps[..n] + [ps[n]];
    }
  }

  lemma StreamNext(ps: seq<Payload>, n: nat, maxFrame: nat)
    requires AllFit(ps, maxFrame) && n < |ps|
    ensures Stream(ps[..n + 1], maxFrame) == Stream(ps[..n], maxFrame) + Framed(ps[n])
  {
    assert ps[..n + 1] == ps[..n] + [ps[n]];
    StreamAppend(ps[..n], [ps[n]], maxFrame);
    assert Stream([ps[n]], maxFrame) == Framed(ps[n]) + Stream([], maxFrame);
  }

  /**
    Framing under any segmentation: however the stream is cut into appends and
    however these interleave with extractions, what is handed on is the payloads
    themselves, in order, and what is held is exactly the rest of what came.
  */
  lemma {:induction false} AnySegmentation(actions: seq<Action>, ps: seq<Payload>, maxFrame: nat)
    requires AllFit(ps, maxFrame) && Prefix(Appended(actions), Stream(ps, maxFrame))
    ensures InStep(Acts(actions, maxFrame), Appended(actions), ps, maxFrame)
  {
    if actions != [] {
      var before, last := actions[..|actions| - 1], actions[|actions| - 1];
      AnySegmentation(before, ps, maxFrame);
      var r := Acts(before, maxFrame);
      match last
      case Append(bytes) =>
        assert Stream(ps[..|r.out|], maxFrame) + (r.buffer + bytes)
            == Stream(ps[..|r.out|], maxFrame) + r.buffer + bytes;
      case Take =>
        TakeInStep(r, Appended(before), ps, maxFrame);
    }
  }

  /** And an extraction gives nothing exactly when the next frame has not all come. */
  lemma NothingMeansIncomplete(actions: seq<Action>, ps: seq<Payload>, maxFrame: nat)
    requires AllFit(ps, maxFrame) && Prefix(Appended(actions), Stream(ps, maxFrame))
    ensures var r := Acts(actions, maxFrame);
            |r.out| <= |ps|
            && (Extract(r.buffer, maxFrame).Incomplete? <==>
                  |r.out| == |ps| || |Appended(actions)| < |Stream(ps[..|r.out| + 1], maxFrame)|)
  {
    AnySegmentation(actions, ps, maxFrame);
    var r := Acts(actions, maxFrame);
    var n := |r.out|;
    Remaining(ps, n, r.buffer, maxFrame);
    NextIsExtracted(ps, n, r.buffer, maxFrame);
    if n < |ps| {
      assert ps[..n + 1] == ps[..n] + [ps[n]];
      StreamAppend(ps[..n], [ps[n]], maxFrame);
      assert Stream([ps[n]], maxFrame) == Framed(ps[n]) + Stream([], maxFrame);
    }
  }

  /** Exactly the payloads longer than the negotiated limit, or than 16 MiB, are refused. */
  lemma LimitIsExact(p: Payload, more: seq<byte>, maxFrame: nat)
    requires |p| < 0x1_0000_0000
    ensures Extract(Framed(p) + more, maxFrame)
         == if |p| > maxFrame || |p| > 16_777_216 then TooLarge else Frame(p, more)
  {
    LengthReads(p, more);
  }

  predicate SomeTake(actions: seq<Action>) {
    exists i :: 0 <= i < |actions| && actions[i].Take?
  }

  /** A length over the limit is never read past: from there on every extraction fails alike, and the first is told. */
  lemma {:induction false} OversizeIsFinal(r: Reader, actions: seq<Action>, maxFrame: nat)
    requires Extract(r.buffer, maxFrame).TooLarge?
    ensures Extract(ActsFrom(r, actions, maxFrame).buffer, maxFrame).TooLarge?
    ensures ActsFrom(r, actions, maxFrame).out == r.out
    ensures ActsFrom(r, actions, maxFrame).failed <==> r.failed || SomeTake(actions)
  {
    if actions != [] {
      var before, last := actions[..|actions| - 1], actions[|actions| - 1];
      OversizeIsFinal(r, before, maxFrame);
      var s := ActsFrom(r, before, maxFrame);
      if last.Append? {
        assert (s.buffer + last.bytes)[..4] == s.buffer[..4];
      }
      assert actions == before + [last];
      if i :| 0 <= i < |before| && before[i].Take? {
        assert actions[i].Take?;
      }
    }
  }

  function ActsFrom(r: Reader, actions: seq<Action>, maxFrame: nat): Reader {
    if actions == [] then r
    else Act(ActsFrom(r, actions[..|actions| - 1], maxFrame), actions[|actions| - 1], maxFrame)
  }

  // ---- The object ----------------------------------------------------------------------------------

  class BufferReader {
    var buffer: seq<byte>
    var maxFrame: nat

    constructor (maxFrame: nat)
      ensures buffer == [] && this.maxFrame == maxFrame
    {
      buffer := [];
      this.maxFrame := maxFrame;
    }

    method AppendBytes(data: seq<byte>)
      modifies this`buffer
      ensures buffer == old(buffer) + data
    {
      buffer := buffer + data;
    }

    /** The next payload, nothing yet, or a length over the limit, which leaves the buffer as it is. */
    method ExtractFrame() returns (r: Result<Option<Payload>, nat>)
      modifies this`buffer
      ensures match Extract(old(buffer), maxFrame)
              case Frame(payload, rest) => r == Ok(Some(payload)) && buffer == rest
              case Incomplete => r == Ok(None) && buffer == old(buffer)
              case TooLarge => r.Err? && buffer == old(buffer)
    {
      if |buffer| < 4 {
        return Ok(None);
      }
      var bytes := buffer[..4];
      var length := 0;
      assert bytes[..0] == [];
      for i := 0 to 4
        invariant length == FromBigEndian(bytes[..i])
      {
        assert bytes[..i + 1][..i] == bytes[..i];
        length := length * 256 + bytes[i];
      }
      assert bytes[..4] == bytes;
      if length > maxFrame || length > MAX_FRAME_HARD_LIMIT {
        return Err(length);
      }
      var totalNeeded := 4 + length;
      if |buffer| < totalNeeded {
        return Ok(None);
      }
      var payload := buffer[4..totalNeeded];
      buffer := buffer[totalNeeded..];
      return Ok(Some(payload));
    }
  }
}
