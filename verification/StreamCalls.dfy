/**
  Which calls on an output stream fail, and how, when neither credit nor the channel
  is in the way.
*/
module StreamCalls {
  import opened CborCodec
  import opened Characters
  import opened OutputStream
  import opened StreamContent
  import opened StreamRuns
  import opened Wrappers

  /** Nothing stops the stream's frames. */
  predicate Free(o: Out) {
    o.credit.None? && o.refused == {}
  }

  lemma {:induction false} EmitsFreely(o: Out, bodies: seq<Body>)
    requires Free(o)
    ensures Emits(o, bodies).err.None? && Free(Emits(o, bodies).out)
    decreases |bodies|
  {
    if bodies != [] {
      EmitsFreely(Emit(o, bodies[0]).out, bodies[1..]);
    }
  }

  lemma BytesFreely(o: Out, data: seq<byte>, maxChunk: nat)
    requires Free(o) && maxChunk > 0
    ensures EmitBytes(o, data, maxChunk).err.None? && Free(EmitBytes(o, data, maxChunk).out)
  {
    EmitsFreely(o, ByteBodies(Split(data, maxChunk)));
  }

  /** The failure a call comes to: out of turn, in the wrong mode, or a character that fits no chunk. */
  function FailsWith(mode: Option<bool>, op: Op, maxChunk: nat): Option<Failure>
    requires OpOk(op)
  {
    match op
    case Start(_, _) => if mode.None? then None else Some(AlreadyStarted)
    case Write(_, _) => InMode(mode, false)
    case EmitCbor(v, _) =>
      if mode == Some(false) && v.Text? && !AllFit(v.b, maxChunk) then Some(Unsplittable) else InMode(mode, false)
    case EmitListItem(_, _) => InMode(mode, true)
    case Flush => None
    case Close => None
  }

  function InMode(mode: Option<bool>, needed: bool): Option<Failure> {
    match mode
    case None => Some(NotStarted)
    case Some(m) => if m == needed then None else Some(ModeConflict)
  }

  /** Exactly which calls fail: out of turn, in the wrong mode, or a text with a character too wide for a chunk. */
  lemma CallFailsAs(o: Out, op: Op, maxChunk: nat)
    requires Free(o) && maxChunk > 0 && OpOk(op)
    ensures Do(o, op, maxChunk).err == FailsWith(o.mode, op, maxChunk) && Free(Do(o, op, maxChunk).out)
  {
    hide Emits, Split, SplitText, AllFit, EmitBytes, IsUtf8, Encode;
    match op
    case Write(data, clock) => DataFreely(o, data, clock, maxChunk);
    case EmitCbor(v, clock) =>
      if v.Bytes? {
        DataFreely(o, v.b, clock, maxChunk);
      } else {
        ValueFreely(o, v, maxChunk);
      }
    case EmitListItem(item, meta) => EmitsFreely(o, FragmentBodies(Split(Encode(item), maxChunk), meta));
    case Flush => FlushFreely(o, maxChunk);
    case Close => FlushFreely(o.(closed := true), maxChunk);
    case _ =>
  }

  lemma DataFreely(o: Out, data: seq<byte>, clock: Clock, maxChunk: nat)
    requires Free(o) && maxChunk > 0
    ensures DoBytes(o, data, clock, maxChunk).err.None? && Free(DoBytes(o, data, clock, maxChunk).out)
  {
    hide EmitBytes;
    BytesFreely(o.(buf := [], oldest := None), o.buf + data, maxChunk);
  }

  lemma FlushFreely(o: Out, maxChunk: nat)
    requires Free(o) && maxChunk > 0
    ensures DoFlush(o, maxChunk).err.None? && Free(DoFlush(o, maxChunk).out)
  {
    hide EmitBytes;
    BytesFreely(o.(buf := [], oldest := None), o.buf, maxChunk);
  }

  lemma ValueFreely(o: Out, v: Cbor, maxChunk: nat)
    requires Free(o) && maxChunk > 0 && (v.Text? ==> IsUtf8(v.b))
    ensures var s := DoValue(o, v, maxChunk);
            s.err == (if v.Text? && !AllFit(v.b, maxChunk) then Some(Unsplittable) else None) && Free(s.out)
  {
    hide Emits, SplitText, AllFit, IsUtf8, DoFlush;
    FlushFreely(o, maxChunk);
    var flushed := DoFlush(o, maxChunk).out;
    match v
    case Text(b) =>
      SplitTextIsFaithful(b, maxChunk);
      EmitsFreely(flushed, TextBodies(SplitText(b, maxChunk).pieces));
    case Array(xs) => EmitsFreely(flushed, ValueBodies(xs));
    case _ => EmitsFreely(flushed, [Whole(v)]);
  }

  /** A character too wide for a chunk stops a text, and is what its call says. */
  lemma TextFailsIff(o: Out, cs: seq<Character>, clock: Clock, maxChunk: nat)
    requires Free(o) && maxChunk > 0 && o.mode == Some(false) && OpOk(EmitCbor(Text(TextOf(cs)), clock))
    ensures Do(o, EmitCbor(Text(TextOf(cs)), clock), maxChunk).err
         == if forall c :: c in cs ==> |Utf8(c)| <= maxChunk then None else Some(Unsplittable)
  {
    CallFailsAs(o, EmitCbor(Text(TextOf(cs)), clock), maxChunk);
    WholeIsBoundary(cs);
    EachFitsIff(cs, maxChunk);
    hide Do, TextOf;
  }
}
