/**
  A handler's output stream: coalescing, chunking, credit and closing.

  `Do` is what one call does to the stream; the class below does it step by step.
  Both readings of the clock, how much credit the stream is yet given before its
  gate closes, and which of its frames the channel refuses are parameters: a
  theorem over all of them holds for every ageing of the buffer, for a cancel at
  any moment and for any failure of the channel.
*/
module OutputStream {
  import opened CborCodec
  import opened Wrappers

  const COALESCE_MAX_BYTES: nat := 4096
  const COALESCE_MAX_AGE_NANOS: nat := 20_000_000

  type Meta = nat

  // ---- Frames of one stream ------------------------------------------------------

  datatype Body = Whole(v: Cbor) | Fragment(bytes: seq<byte>, meta: Option<Meta>)

  datatype StreamFrame =
    | StreamStart(isSequence: bool, unbounded: bool)
    | Chunk(index: nat, body: Body)
    | StreamEnd(count: Option<nat>)

  datatype Failure = NotStarted | ModeConflict | AlreadyStarted | GateClosed | Refused | Unsplittable

  // `credit` is what the stream will yet be granted before its gate closes; None is a gate that never closes.
  // `handed` is every frame given to the writer, `refused` the places in it of those the channel does not take,
  // and `wire` the others.
  datatype Out = Out(mode: Option<bool>, unbounded: bool, sent: nat, closed: bool,
                     buf: seq<byte>, oldest: Option<u64>, credit: Option<nat>,
                     refused: set<nat>, handed: seq<StreamFrame>, wire: seq<StreamFrame>)

  datatype Step = Step(out: Out, err: Option<Failure>)

  function Opened(credit: Option<nat>, refused: set<nat>): Out {
    Out(None, false, 0, false, [], None, credit, refused, [], [])
  }

  /** One frame to the writer. */
  function Hand(o: Out, frame: StreamFrame): Step {
    if |o.handed| in o.refused then Step(o.(handed := o.handed + [frame]), Some(Refused))
    else Step(o.(handed := o.handed + [frame], wire := o.wire + [frame]), None)
  }

  // ---- Chunks ------------------------------------------------------------------

  /** One chunk: a credit and an index, spent before the frame is tried, and the frame. */
  function Emit(o: Out, body: Body): Step {
    if o.credit == Some(0) then Step(o, Some(GateClosed))
    else
      var credit := if o.credit.Some? then Some(o.credit.value - 1) else None;
      Hand(o.(credit := credit, sent := o.sent + 1), Chunk(o.sent, body))
  }

  function Emits(o: Out, bodies: seq<Body>): Step
    decreases |bodies|
  {
    if bodies == [] then Step(o, None)
    else
      var first := Emit(o, bodies[0]);
      if first.err.Some? then first else Emits(first.out, bodies[1..])
  }

  /** Cut at every maxChunk bytes. */
  function Split(data: seq<byte>, maxChunk: nat): seq<seq<byte>>
    requires maxChunk > 0
  {
    if data == [] then []
    else
      var n := Min(|data|, maxChunk);
      [data[..n]] + Split(data[n..], maxChunk)
  }

  function ByteBodies(pieces: seq<seq<byte>>): seq<Body> {
    seq(|pieces|, i requires 0 <= i < |pieces| => Whole(Bytes(pieces[i])))
  }

  function TextBodies(pieces: seq<seq<byte>>): seq<Body> {
    seq(|pieces|, i requires 0 <= i < |pieces| => Whole(Text(pieces[i])))
  }

  function ValueBodies(vs: seq<Cbor>): seq<Body> {
    seq(|vs|, i requires 0 <= i < |vs| => Whole(vs[i]))
  }

  /** The pairs of a map's keys and values, as it is sent. */
  function Pairs(entries: seq<(Cbor, Cbor)>): seq<Cbor> {
    seq(|entries|, i requires 0 <= i < |entries| => Array([entries[i].0, entries[i].1]))
  }

  /** An item's fragments: its metadata rides on the first only. */
  function FragmentBodies(pieces: seq<seq<byte>>, meta: Option<Meta>): seq<Body> {
    seq(|pieces|, i requires 0 <= i < |pieces| => Fragment(pieces[i], if i == 0 then meta else None))
  }

  // ---- UTF-8 -------------------------------------------------------------------

  /** Bytes in the character a lead byte announces; 0 for a byte that cannot lead. */
  function Width(lead: byte): nat {
    if lead < 0x80 then 1 else if lead < 0xC0 then 0 else if lead < 0xE0 then 2
    else if lead < 0xF0 then 3 else if lead < 0xF8 then 4 else 0
  }

  predicate Continues(bs: seq<byte>) {
    forall i :: 0 <= i < |bs| ==> 0x80 <= bs[i] < 0xC0
  }

  // Whole characters only.  Of a valid text, a slice is valid exactly when it is this.
  predicate IsUtf8(bs: seq<byte>) {
    bs == [] ||
    var w := Width(bs[0]);
    0 < w <= |bs| && Continues(bs[1..w]) && IsUtf8(bs[w..])
  }

  /** The longest prefix of at most n bytes that does not cut a character. */
  function LongestText(bs: seq<byte>, n: nat): (k: nat)
    requires n <= |bs|
    ensures k <= n
  {
    if n == 0 || IsUtf8(bs[..n]) then n else LongestText(bs, n - 1)
  }

  datatype TextSplit = TextSplit(pieces: seq<seq<byte>>, whole: bool)

  /** The pieces a text is sent in, up to a character that fits no chunk. */
  function SplitText(bs: seq<byte>, maxChunk: nat): TextSplit
    decreases |bs|
  {
    if bs == [] then TextSplit([], true)
    else
      var n := LongestText(bs, Min(|bs|, maxChunk));
      if n == 0 then TextSplit([], false)
      else
        var rest := SplitText(bs[n..], maxChunk);
        TextSplit([bs[..n]] + rest.pieces, rest.whole)
  }

  // ---- Coalescing ----------------------------------------------------------------

  function Aged(oldest: Option<u64>, now: u64): bool {
    oldest.Some? && (now - oldest.value) % TWO_64 >= COALESCE_MAX_AGE_NANOS
  }

  datatype Clock = Clock(first: u64, second: u64)

  function Coalesce(o: Out, data: seq<byte>, clock: Clock): (Out, Option<seq<byte>>) {
    var oldest := if o.buf == [] then Some(clock.first) else o.oldest;
    var buf := o.buf + data;
    if |buf| >= COALESCE_MAX_BYTES || Aged(oldest, clock.second) then
      (o.(buf := [], oldest := None), Some(buf))
    else (o.(buf := buf, oldest := oldest), None)
  }

  // ---- Calls ---------------------------------------------------------------------

  datatype Op =
    | Start(isSequence: bool, unboundedStream: bool)
    | Write(data: seq<byte>, clock: Clock)
    | EmitCbor(v: Cbor, clock: Clock)
    | EmitListItem(item: Cbor, meta: Option<Meta>)
    | Flush
    | Close

  function WrongMode(o: Out, isSequence: bool): Option<Failure> {
    if o.mode.None? then Some(NotStarted)
    else if o.mode.value != isSequence then Some(ModeConflict) else None
  }

  function EmitBytes(o: Out, data: seq<byte>, maxChunk: nat): Step
    requires maxChunk > 0
  {
    Emits(o, ByteBodies(Split(data, maxChunk)))
  }

  function EmitFragments(o: Out, data: seq<byte>, meta: Option<Meta>, maxChunk: nat): Step
    requires maxChunk > 0
  {
    Emits(o, FragmentBodies(Split(data, maxChunk), meta))
  }

  /** A text sent piece by piece; a character that fits no chunk stops it. */
  function DoText(o: Out, text: seq<byte>, maxChunk: nat): Step {
    var split := SplitText(text, maxChunk);
    var sent := Emits(o, TextBodies(split.pieces));
    if sent.err.None? && !split.whole then sent.(err := Some(Unsplittable)) else sent
  }

  function DoFlush(o: Out, maxChunk: nat): Step
    requires maxChunk > 0
  {
    if o.buf == [] then Step(o, None)
    else EmitBytes(o.(buf := [], oldest := None), o.buf, maxChunk)
  }

  function DoBytes(o: Out, data: seq<byte>, clock: Clock, maxChunk: nat): Step
    requires maxChunk > 0
  {
    if data == [] then Step(o, None)
    else
      var (after, due) := Coalesce(o, data, clock);
      if due.None? then Step(after, None) else EmitBytes(after, due.value, maxChunk)
  }

  function DoValue(o: Out, v: Cbor, maxChunk: nat): Step
    requires maxChunk > 0
  {
    var flushed := DoFlush(o, maxChunk);
    if flushed.err.Some? then flushed
    else
      match v
      case Text(b) => DoText(flushed.out, b, maxChunk)
      case Array(xs) => Emits(flushed.out, ValueBodies(xs))
      case _ => Emits(flushed.out, [Whole(v)])
  }

  function DoClose(o: Out, maxChunk: nat): Step
    requires maxChunk > 0
  {
    if o.closed then Step(o, None)
    else if o.mode.None? then Step(o.(closed := true), None)
    else
      var flushed := DoFlush(o.(closed := true), maxChunk);
      if flushed.err.Some? then flushed
      else
        Hand(flushed.out, StreamEnd(if o.unbounded then None else Some(flushed.out.sent)))
  }

  function DoStart(o: Out, isSequence: bool, unbounded: bool): Step {
    if o.mode.Some? then Step(o, Some(AlreadyStarted))
    else Hand(o.(mode := Some(isSequence), unbounded := unbounded), StreamStart(isSequence, unbounded))
  }

  // A value has lengths a head can state, and a text is a text.
  predicate OpOk(op: Op) {
    (op.EmitListItem? ==> Encodable(op.item))
    && (op.EmitCbor? ==> Encodable(op.v) && (op.v.Text? ==> IsUtf8(op.v.b)))
  }

  /** What one call does to the stream. */
  function Do(o: Out, op: Op, maxChunk: nat): Step
    requires maxChunk > 0 && OpOk(op)
  {
    match op
    case Start(isSequence, unbounded) => DoStart(o, isSequence, unbounded)
    case Write(data, clock) =>
      if WrongMode(o, false).Some? then Step(o, WrongMode(o, false)) else DoBytes(o, data, clock, maxChunk)
    case EmitCbor(v, clock) =>
      if WrongMode(o, false).Some? then Step(o, WrongMode(o, false))
      else if v.Bytes? then DoBytes(o, v.b, clock, maxChunk)
      else DoValue(o, v, maxChunk)
    case EmitListItem(item, meta) =>
      if WrongMode(o, true).Some? then Step(o, WrongMode(o, true))
      else EmitFragments(o, Encode(item), meta, maxChunk)
    case Flush => DoFlush(o, maxChunk)
    case Close => DoClose(o, maxChunk)
  }

  // ---- Sending in a loop ----------------------------------------------------------

  lemma EmitsStep(o: Out, body: Body, rest: seq<Body>)
    ensures Emits(o, [body] + rest)
         == if Emit(o, body).err.Some? then Emit(o, body) else Emits(Emit(o, body).out, rest)
  {
    assert ([body] + rest)[1..] == rest;
  }

  lemma TextBodiesCons(x: seq<byte>, rest: seq<seq<byte>>)
    ensures TextBodies([x] + rest) == [Whole(Text(x))] + TextBodies(rest)
  {
  }

  lemma SplitTextCons(text: seq<byte>, maxChunk: nat, n: nat)
    requires text != [] && n == LongestText(text, Min(|text|, maxChunk)) && n > 0
    ensures SplitText(text, maxChunk).whole == SplitText(text[n..], maxChunk).whole
    ensures TextBodies(SplitText(text, maxChunk).pieces)
         == [Whole(Text(text[..n]))] + TextBodies(SplitText(text[n..], maxChunk).pieces)
  {
    TextBodiesCons(text[..n], SplitText(text[n..], maxChunk).pieces);
  }

  lemma DoTextNext(o: Out, text: seq<byte>, maxChunk: nat, n: nat)
    requires text != [] && n == LongestText(text, Min(|text|, maxChunk))
    ensures n == 0 ==> DoText(o, text, maxChunk) == Step(o, Some(Unsplittable))
    ensures n > 0 ==>
              var first := Emit(o, Whole(Text(text[..n])));
              DoText(o, text, maxChunk) == if first.err.Some? then first else DoText(first.out, text[n..], maxChunk)
  {
    if n > 0 {
      SplitTextCons(text, maxChunk, n);
      EmitsStep(o, Whole(Text(text[..n])), TextBodies(SplitText(text[n..], maxChunk).pieces));
    }
  }

  lemma NothingToSend(o: Out, meta: Option<Meta>, maxChunk: nat)
    ensures DoText(o, [], maxChunk) == Step(o, None)
    ensures maxChunk > 0 ==> EmitFragments(o, [], meta, maxChunk) == Step(o, None)
  {
  }

  lemma EmitBytesNext(o: Out, data: seq<byte>, maxChunk: nat, n: nat)
    requires maxChunk > 0 && data != [] && n == Min(|data|, maxChunk)
    ensures var first := Emit(o, Whole(Bytes(data[..n])));
            EmitBytes(o, data, maxChunk) == if first.err.Some? then first else EmitBytes(first.out, data[n..], maxChunk)
  {
    var rest := ByteBodies(Split(data[n..], maxChunk));
    assert ByteBodies(Split(data, maxChunk)) == [Whole(Bytes(data[..n]))] + rest;
    EmitsStep(o, Whole(Bytes(data[..n])), rest);
  }

  lemma EmitFragmentsNext(o: Out, data: seq<byte>, meta: Option<Meta>, maxChunk: nat, n: nat)
    requires maxChunk > 0 && data != [] && n == Min(|data|, maxChunk)
    ensures var first := Emit(o, Fragment(data[..n], meta));
            EmitFragments(o, data, meta, maxChunk)
            == if first.err.Some? then first else EmitFragments(first.out, data[n..], None, maxChunk)
  {
    var rest := FragmentBodies(Split(data[n..], maxChunk), None);
    assert FragmentBodies(Split(data, maxChunk), meta) == [Fragment(data[..n], meta)] + rest;
    EmitsStep(o, Fragment(data[..n], meta), rest);
  }

  lemma PairsNext(entries: seq<(Cbor, Cbor)>, i: nat)
    requires i < |entries|
    ensures ValueBodies(Pairs(entries[i..]))
         == [Whole(Array([entries[i].0, entries[i].1]))] + ValueBodies(Pairs(entries[i + 1..]))
  {
  }

  lemma NoPairs(entries: seq<(Cbor, Cbor)>)
    requires entries == []
    ensures ValueBodies(Pairs(entries)) == []
  {
  }

  lemma Slide(data: seq<byte>, offset: nat, n: nat)
    requires offset + n <= |data|
    ensures data[offset..][..n] == data[offset..offset + n]
    ensures data[offset..][n..] == data[offset + n..]
  {
  }

  // ---- The objects -----------------------------------------------------------------

  class CoalesceBuf {
    var buf: seq<byte>
    var oldestNanos: Option<u64>

    constructor ()
      ensures buf == [] && oldestNanos == None
    {
      buf, oldestNanos := [], None;
    }

    /** A batch that is due, or nothing while still accumulating. */
    method Append(data: seq<byte>, clock: Clock, ghost o: Out) returns (due: Option<seq<byte>>)
      requires buf == o.buf && oldestNanos == o.oldest
      modifies this
      ensures var (after, batch) := Coalesce(o, data, clock);
              due == batch && buf == after.buf && oldestNanos == after.oldest
    {
      if |buf| == 0 {
        oldestNanos := Some(clock.first);
      }
      buf := buf + data;
      var aged := false;
      if oldestNanos.Some? {
        aged := (clock.second - oldestNanos.value) % TWO_64 >= COALESCE_MAX_AGE_NANOS;
      }
      if |buf| >= COALESCE_MAX_BYTES || aged {
        oldestNanos := None;
        due := Some(buf);
        buf := [];
      } else {
        due := None;
      }
    }

    method Take() returns (batch: Option<seq<byte>>)
      modifies this
      ensures batch == if old(buf) == [] then None else Some(old(buf))
      ensures buf == [] && oldestNanos == if old(buf) == [] then old(oldestNanos) else None
    {
      if |buf| == 0 {
        return None;
      }
      oldestNanos := None;
      batch := Some(buf);
      buf := [];
    }
  }

  class OutputStream {
    var streamMode: Option<bool>
    var isUnbounded: bool
    var chunkIndex: nat
    var chunkCount: nat
    var closed: bool
    var credit: Option<nat>
    var handed: seq<StreamFrame>
    var wire: seq<StreamFrame>
    const refused: set<nat>
    const coalesce: CoalesceBuf
    const maxChunk: nat

    ghost predicate Valid()
      reads this
    {
      maxChunk > 0 && chunkIndex == chunkCount
    }

    ghost function State(): Out
      reads this, coalesce
    {
      Out(streamMode, isUnbounded, chunkCount, closed, coalesce.buf, coalesce.oldestNanos, credit,
          refused, handed, wire)
    }

    constructor (maxChunk: nat, credit: Option<nat>, refused: set<nat>)
      requires maxChunk > 0
      ensures Valid() && State() == Opened(credit, refused) && this.maxChunk == maxChunk && fresh(coalesce)
    {
      this.maxChunk := maxChunk;
      this.credit, this.refused := credit, refused;
      coalesce := new CoalesceBuf();
      streamMode, isUnbounded, closed, handed, wire := None, false, false, [], [];
      chunkIndex, chunkCount := 0, 0;
    }

    method MarkStarted(isSequence: bool, unbounded: bool) returns (err: Option<Failure>)
      requires Valid()
      modifies this`streamMode, this`isUnbounded
      ensures err == if old(streamMode).Some? then Some(AlreadyStarted) else None
      ensures err.Some? ==> State() == old(State())
      ensures err.None? ==> State() == old(State()).(mode := Some(isSequence), unbounded := unbounded)
    {
      if streamMode.Some? {
        return Some(AlreadyStarted);
      }
      streamMode, isUnbounded := Some(isSequence), unbounded;
      return None;
    }

    /** The writer's answer to one frame. */
    method SendFrame(frame: StreamFrame) returns (err: Option<Failure>)
      requires Valid()
      modifies this`handed, this`wire
      ensures Valid() && Step(State(), err) == Hand(old(State()), frame)
    {
      var taken := |handed| !in refused;
      handed := handed + [frame];
      if !taken {
        return Some(Refused);
      }
      wire := wire + [frame];
      return None;
    }

    method StartStream(isSequence: bool, unbounded: bool) returns (err: Option<Failure>)
      requires Valid()
      modifies this
      ensures Valid() && Step(State(), err) == Do(old(State()), Start(isSequence, unbounded), maxChunk)
    {
      err := MarkStarted(isSequence, unbounded);
      if err.None? {
        err := SendFrame(StreamStart(isSequence, unbounded));
      }
    }

    method CheckMode(isSequence: bool) returns (err: Option<Failure>)
      ensures err == WrongMode(State(), isSequence)
    {
      if streamMode.None? {
        return Some(NotStarted);
      }
      return if streamMode.value != isSequence then Some(ModeConflict) else None;
    }

    method AcquireCredit() returns (err: Option<Failure>)
      requires Valid()
      modifies this`credit
      ensures err == if old(credit) == Some(0) then Some(GateClosed) else None
      ensures credit == if err.None? && old(credit).Some? then Some(old(credit).value - 1) else old(credit)
    {
      if credit == Some(0) {
        return Some(GateClosed);
      }
      if credit.Some? {
        credit := Some(credit.value - 1);
      }
      return None;
    }

    method SendChunk(body: Body) returns (err: Option<Failure>)
      requires Valid()
      modifies this`chunkIndex, this`chunkCount, this`handed, this`wire
      ensures Valid()
      ensures Step(State(), err) == Hand(old(State()).(sent := old(chunkCount) + 1), Chunk(old(chunkCount), body))
    {
      var current := chunkIndex;
      chunkIndex := chunkIndex + 1;
      chunkCount := chunkCount + 1;
      err := SendFrame(Chunk(current, body));
    }

    /** Credit, then the chunk: every loop below does this per piece. */
    method SendOne(body: Body) returns (err: Option<Failure>)
      requires Valid()
      modifies this`credit, this`chunkIndex, this`chunkCount, this`handed, this`wire
      ensures Valid() && Step(State(), err) == Emit(old(State()), body)
    {
      err := AcquireCredit();
      if err.None? {
        err := SendChunk(body);
      }
    }

    method WriteBatch(data: seq<byte>) returns (err: Option<Failure>)
      requires Valid()
      modifies this`credit, this`chunkIndex, this`chunkCount, this`handed, this`wire
      ensures Valid() && Step(State(), err) == EmitBytes(old(State()), data, maxChunk)
    {
      var offset := 0;
      assert data[0..] == data;
      while offset < |data|
        invariant 0 <= offset <= |data| && Valid()
        invariant EmitBytes(State(), data[offset..], maxChunk) == EmitBytes(old(State()), data, maxChunk)
      {
        var chunkSize := Min(|data| - offset, maxChunk);
        var chunkBytes := data[offset..offset + chunkSize];
        EmitBytesNext(State(), data[offset..], maxChunk, chunkSize);
        Slide(data, offset, chunkSize);
        err := SendOne(Whole(Bytes(chunkBytes)));
        if err.Some? {
          return err;
        }
        offset := offset + chunkSize;
      }
      return None;
    }

    method FlushStream() returns (err: Option<Failure>)
      requires Valid()
      modifies this`credit, this`chunkIndex, this`chunkCount, this`handed, this`wire, coalesce
      ensures Valid() && Step(State(), err) == Do(old(State()), Flush, maxChunk)
    {
      var batch := coalesce.Take();
      if batch.None? {
        return None;
      }
      err := WriteBatch(batch.value);
    }

    method WriteBytes(data: seq<byte>, clock: Clock) returns (err: Option<Failure>)
      requires Valid()
      modifies this, coalesce
      ensures Valid() && Step(State(), err) == Do(old(State()), Write(data, clock), maxChunk)
    {
      err := CheckMode(false);
      if err.Some? || |data| == 0 {
        return err;
      }
      var due := coalesce.Append(data, clock, State());
      if due.None? {
        return None;
      }
      err := WriteBatch(due.value);
    }

    method EmitText(text: seq<byte>) returns (err: Option<Failure>)
      requires Valid()
      modifies this`credit, this`chunkIndex, this`chunkCount, this`handed, this`wire
      ensures Valid() && Step(State(), err) == DoText(old(State()), text, maxChunk)
    {
      hide DoText, Emit, LongestText;
      var offset := 0;
      assert text[0..] == text;
      while offset < |text|
        invariant 0 <= offset <= |text| && Valid()
        invariant DoText(State(), text[offset..], maxChunk) == DoText(old(State()), text, maxChunk)
      {
        var chunkSize := LongestTextAt(text, offset, Min(|text| - offset, maxChunk));
        DoTextNext(State(), text[offset..], maxChunk, chunkSize);
        if chunkSize == 0 {
          return Some(Unsplittable);
        }
        var chunk := text[offset..offset + chunkSize];
        Slide(text, offset, chunkSize);
        err := SendOne(Whole(Text(chunk)));
        if err.Some? {
          return err;
        }
        offset := offset + chunkSize;
      }
      assert text[offset..] == [];
      NothingToSend(State(), None, maxChunk);
      return None;
    }

    /** Backs off from n until the slice does not cut a character. */
    static method LongestTextAt(text: seq<byte>, offset: nat, n: nat) returns (k: nat)
      requires offset + n <= |text|
      ensures k == LongestText(text[offset..], n)
    {
      k := n;
      ghost var left := text[offset..];
      while k > 0
        invariant k <= n && LongestText(left, k) == LongestText(left, n)
      {
        assert left[..k] == text[offset..offset + k];
        if IsUtf8(text[offset..offset + k]) {
          return k;
        }
        k := k - 1;
      }
    }

    method EmitValues(vs: seq<Cbor>) returns (err: Option<Failure>)
      requires Valid()
      modifies this`credit, this`chunkIndex, this`chunkCount, this`handed, this`wire
      ensures Valid() && Step(State(), err) == Emits(old(State()), ValueBodies(vs))
    {
      ghost var all := Emits(State(), ValueBodies(vs));
      assert vs[0..] == vs;
      for i := 0 to |vs|
        invariant Valid() && Emits(State(), ValueBodies(vs[i..])) == all
      {
        assert ValueBodies(vs[i..]) == [Whole(vs[i])] + ValueBodies(vs[i + 1..]);
        EmitsStep(State(), Whole(vs[i]), ValueBodies(vs[i + 1..]));
        err := SendOne(Whole(vs[i]));
        if err.Some? {
          return err;
        }
      }
      return None;
    }

    /** A map goes out as the array of its pairs does, whichever order its entries are met in. */
    method EmitMap(entries: seq<(Cbor, Cbor)>, clock: Clock) returns (err: Option<Failure>)
      requires Valid() && Encodable(Array(Pairs(entries)))
      modifies this`credit, this`chunkIndex, this`chunkCount, this`handed, this`wire, coalesce
      ensures Valid() && Step(State(), err) == Do(old(State()), EmitCbor(Array(Pairs(entries)), clock), maxChunk)
    {
      err := CheckMode(false);
      if err.Some? {
        return err;
      }
      err := FlushStream();
      if err.Some? {
        return err;
      }
      hide Emit, Pairs, ValueBodies;
      ghost var all := Emits(State(), ValueBodies(Pairs(entries)));
      assert entries[0..] == entries;
      for i := 0 to |entries|
        invariant Valid() && Emits(State(), ValueBodies(Pairs(entries[i..]))) == all
      {
        var entry := Array([entries[i].0, entries[i].1]);
        PairsNext(entries, i);
        EmitsStep(State(), Whole(entry), ValueBodies(Pairs(entries[i + 1..])));
        err := SendOne(Whole(entry));
        if err.Some? {
          return err;
        }
      }
      NoPairs(entries[|entries|..]);
      return None;
    }

    method EmitValue(v: Cbor, clock: Clock) returns (err: Option<Failure>)
      requires Valid() && Encodable(v) && (v.Text? ==> IsUtf8(v.b))
      modifies this, coalesce
      ensures Valid() && Step(State(), err) == Do(old(State()), EmitCbor(v, clock), maxChunk)
    {
      err := CheckMode(false);
      if err.Some? {
        return err;
      }
      if v.Bytes? {
        err := WriteBytes(v.b, clock);
        return err;
      }
      err := FlushStream();
      if err.Some? {
        return err;
      }
      if v.Text? {
        err := EmitText(v.b);
      } else if v.Array? {
        err := EmitValues(v.xs);
      } else {
        EmitsStep(State(), Whole(v), []);
        assert [Whole(v)] + [] == [Whole(v)];
        err := SendOne(Whole(v));
      }
    }

    method EmitItem(item: Cbor, meta: Option<Meta>) returns (err: Option<Failure>)
      requires Valid() && Encodable(item)
      modifies this`credit, this`chunkIndex, this`chunkCount, this`handed, this`wire
      ensures Valid() && Step(State(), err) == Do(old(State()), EmitListItem(item, meta), maxChunk)
    {
      err := CheckMode(true);
      if err.Some? {
        return err;
      }
      err := SendItem(Encode(item), meta);
    }

    /** The item's metadata rides on its first fragment. */
    method SendItem(bytes: seq<byte>, meta: Option<Meta>) returns (err: Option<Failure>)
      requires Valid()
      modifies this`credit, this`chunkIndex, this`chunkCount, this`handed, this`wire
      ensures Valid() && Step(State(), err) == EmitFragments(old(State()), bytes, meta, maxChunk)
    {
      hide EmitFragments, Emit;
      var offset, itemMeta := 0, meta;
      assert bytes[0..] == bytes;
      while offset < |bytes|
        invariant 0 <= offset <= |bytes| && Valid()
        invariant EmitFragments(State(), bytes[offset..], itemMeta, maxChunk)
               == EmitFragments(old(State()), bytes, meta, maxChunk)
      {
        var chunkSize := Min(|bytes| - offset, maxChunk);
        var payload := bytes[offset..offset + chunkSize];
        EmitFragmentsNext(State(), bytes[offset..], itemMeta, maxChunk, chunkSize);
        Slide(bytes, offset, chunkSize);
        err := SendOne(Fragment(payload, itemMeta));
        if err.Some? {
          return err;
        }
        itemMeta := None;
        offset := offset + chunkSize;
      }
      assert bytes[offset..] == [];
      NothingToSend(State(), itemMeta, maxChunk);
      return None;
    }

    method CloseStream() returns (err: Option<Failure>)
      requires Valid()
      modifies this, coalesce
      ensures Valid() && Step(State(), err) == Do(old(State()), Close, maxChunk)
    {
      if closed {
        return None;
      }
      closed := true;
      if streamMode.None? {
        return None;
      }
      err := FlushStream();
      if err.None? {
        err := SendFrame(StreamEnd(if isUnbounded then None else Some(chunkCount)));
      }
    }
  }
}
