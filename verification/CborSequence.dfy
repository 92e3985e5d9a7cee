/**
  Splitting and assembling CBOR sequences and arrays.

  The splitter steps over an item by the length of its RE-ENCODING, not by the
  bytes it was read from.  The two agree exactly on shortest-form input, and the
  theorems below say exactly when the documented round trips hold.
*/
module CborSequence {
  import opened CborCodec
  import opened Wrappers

  datatype SequenceError = EmptySequence | NotAnArray | EmptyArray | Deserialization(item: nat)

  function Concat(items: seq<seq<byte>>): seq<byte> {
    if items == [] then [] else items[0] + Concat(items[1..])
  }

  function EncodeEach(vs: seq<Cbor>): (items: seq<seq<byte>>)
    requires AllEncodable(vs)
    ensures |items| == |vs|
  {
    if vs == [] then [] else [Encode(vs[0])] + EncodeEach(vs[1..])
  }

  // ---- Splitting a sequence -------------------------------------------------

  /** What the split loop makes of the bytes from its offset on. */
  function SplitFrom(bytes: seq<byte>, item: nat): Result<seq<seq<byte>>, SequenceError>
    decreases |bytes|
  {
    if bytes == [] then Ok([])
    else
      match Decode(bytes)
      case Short => Err(Deserialization(item))
      case Bad => Err(Deserialization(item))
      case Done(v, _) =>
        EncodeNotLonger(bytes);
        match SplitFrom(bytes[|Encode(v)|..], item + 1)
        case Err(e) => Err(e)
        case Ok(items) => Ok([Encode(v)] + items)
  }

  function SplitSpec(data: seq<byte>): Result<seq<seq<byte>>, SequenceError> {
    if data == [] then Err(EmptySequence) else SplitFrom(data, 0)
  }

  /** The result of the loop once `items` are out and `rest` is still to be read. */
  function Resume(items: seq<seq<byte>>, rest: seq<byte>): Result<seq<seq<byte>>, SequenceError> {
    match SplitFrom(rest, |items|)
    case Err(e) => Err(e)
    case Ok(more) => Ok(items + more)
  }

  lemma ResumeStep(items: seq<seq<byte>>, rest: seq<byte>)
    requires rest != [] && Decode(rest).Done?
    ensures var encoded := Encode(Decode(rest).v);
            |encoded| <= |rest| && Resume(items, rest) == Resume(items + [encoded], rest[|encoded|..])
  {
    hide Decode, Encode, DecodeHead;
    var encoded := Encode(Decode(rest).v);
    EncodeNotLonger(rest);
    var tail := SplitFrom(rest[|encoded|..], |items| + 1);
    if tail.Ok? {
      assert items + ([encoded] + tail.value) == items + [encoded] + tail.value;
    }
  }

  lemma ResumeFails(items: seq<seq<byte>>, rest: seq<byte>)
    requires rest != [] && !Decode(rest).Done?
    ensures Resume(items, rest) == Err(Deserialization(|items|))
  {
  }

  lemma ResumeEnds(items: seq<seq<byte>>)
    ensures Resume(items, []) == Ok(items)
  {
    assert items + [] == items;
  }

  lemma ResumeStarts(data: seq<byte>)
    ensures Resume([], data) == SplitFrom(data, 0)
  {
    var r := SplitFrom(data, 0);
    if r.Ok? {
      assert [] + r.value == r.value;
    }
  }

  method SplitCborSequence(data: seq<byte>) returns (r: Result<seq<seq<byte>>, SequenceError>)
    ensures r == SplitSpec(data)
  {
    if |data| == 0 {
      return Err(EmptySequence);
    }
    var items: seq<seq<byte>> := [];
    var offset := 0;
    assert data[0..] == data;
    ResumeStarts(data);
    while offset < |data|
      invariant 0 <= offset <= |data|
      invariant Resume(items, data[offset..]) == SplitFrom(data, 0)
    {
      var remaining := data[offset..];
      var decoded := Decode(remaining);
      if !decoded.Done? {
        ResumeFails(items, remaining);
        return Err(Deserialization(|items|));
      }
      var encoded := Encode(decoded.v);
      ResumeStep(items, remaining);
      assert remaining[|encoded|..] == data[offset + |encoded|..];
      items := items + [encoded];
      offset := offset + |encoded|;
    }
    ResumeEnds(items);
    r := Ok(items);
  }

  // ---- Assembling a sequence ------------------------------------------------

  predicate AllDecodable(items: seq<seq<byte>>) {
    forall i :: 0 <= i < |items| ==> Decode(items[i]).Done?
  }

  /** Each item is the encoder's own output for one value, with nothing after it. */
  predicate IsEncoding(item: seq<byte>) {
    Decode(item).Done? && Encode(Decode(item).v) == item
  }

  method AssembleCborSequence(items: seq<seq<byte>>) returns (r: Result<seq<byte>, SequenceError>)
    ensures AllDecodable(items) ==> r == Ok(Concat(items))
    ensures !AllDecodable(items) ==>
              r.Err? && r.error.Deserialization? && r.error.item < |items|
              && !Decode(items[r.error.item]).Done? && AllDecodable(items[..r.error.item])
  {
    var result: seq<byte> := [];
    assert items[0..] == items;
    for i := 0 to |items|
      invariant AllDecodable(items[..i])
      invariant result + Concat(items[i..]) == Concat(items)
    {
      if !Decode(items[i]).Done? {
        return Err(Deserialization(i));
      }
      assert items[i..][1..] == items[i + 1..];
      assert result + (items[i] + Concat(items[i + 1..])) == result + items[i] + Concat(items[i + 1..]);
      result := result + items[i];
    }
    assert items[..|items|] == items && result + [] == result;
    r := Ok(result);
  }

  // ---- What the two promise together ----------------------------------------

  lemma {:induction false} SplitEncodeAll(vs: seq<Cbor>, item: nat)
    requires AllEncodable(vs)
    ensures SplitFrom(EncodeAll(vs), item) == Ok(EncodeEach(vs))
    ensures Concat(EncodeEach(vs)) == EncodeAll(vs)
  {
    if vs != [] {
      var first, more := Encode(vs[0]), EncodeAll(vs[1..]);
      DecodeEncode(vs[0], more);
      assert (first + more)[|first|..] == more;
      SplitEncodeAll(vs[1..], item + 1);
      assert EncodeEach(vs)[1..] == EncodeEach(vs[1..]);
    }
  }

  lemma {:induction false} SplitYieldsEncodings(bytes: seq<byte>, item: nat)
    requires SplitFrom(bytes, item).Ok?
    ensures var items := SplitFrom(bytes, item).value;
            forall i :: 0 <= i < |items| ==> IsEncoding(items[i])
    decreases |bytes|
  {
    if bytes != [] {
      var v := Decode(bytes).v;
      EncodeNotLonger(bytes);
      DecodeEncode(v, []);
      assert Encode(v) + [] == Encode(v);
      SplitYieldsEncodings(bytes[|Encode(v)|..], item + 1);
    }
  }

  /** Concatenated encodings are the encoding of a list of values. */
  lemma {:induction false} ValuesOf(items: seq<seq<byte>>) returns (vs: seq<Cbor>)
    requires forall i :: 0 <= i < |items| ==> IsEncoding(items[i])
    ensures AllEncodable(vs) && EncodeEach(vs) == items && Concat(items) == EncodeAll(vs)
  {
    if items == [] {
      vs := [];
    } else {
      var rest := ValuesOf(items[1..]);
      vs := [Decode(items[0]).v] + rest;
      assert vs[1..] == rest;
    }
  }

  /** Data every item of which is in shortest form: what the encoder writes, item after item. */
  predicate ShortestForm(data: seq<byte>)
    decreases |data|
  {
    data == [] ||
    (Decode(data).Done?
     && Encode(Decode(data).v) == data[..Decode(data).used]
     && ShortestForm(data[Decode(data).used..]))
  }

  lemma {:induction false} ShortestFormIsEncoded(data: seq<byte>) returns (vs: seq<Cbor>)
    requires ShortestForm(data)
    ensures AllEncodable(vs) && EncodeAll(vs) == data
    decreases |data|
  {
    if data == [] {
      vs := [];
    } else {
      var v, used := Decode(data).v, Decode(data).used;
      var tail := data[used..];
      var rest := ShortestFormIsEncoded(tail);
      vs := [v] + rest;
      calc {
        EncodeAll(vs);
        Encode(v) + EncodeAll(rest);
        data[..used] + tail;
        data;
      }
    }
  }

  lemma {:induction false} EncodedIsShortestForm(vs: seq<Cbor>)
    requires AllEncodable(vs)
    ensures ShortestForm(EncodeAll(vs))
  {
    if vs != [] {
      var first, more := Encode(vs[0]), EncodeAll(vs[1..]);
      DecodeEncode(vs[0], more);
      assert (first + more)[..|first|] == first && (first + more)[|first|..] == more;
      EncodedIsShortestForm(vs[1..]);
    }
  }

  /**
    Splitting loses nothing exactly on shortest-form data.  On any other
    decodable input the items do not concatenate back to it.
  */
  lemma SplitIsFaithfulIff(data: seq<byte>)
    ensures (SplitSpec(data).Ok? && Concat(SplitSpec(data).value) == data)
            <==> (data != [] && ShortestForm(data))
  {
    if data != [] && SplitSpec(data).Ok? && Concat(SplitSpec(data).value) == data {
      SplitYieldsEncodings(data, 0);
      var vs := ValuesOf(SplitSpec(data).value);
      EncodedIsShortestForm(vs);
    }
    if data != [] && ShortestForm(data) {
      var vs := ShortestFormIsEncoded(data);
      SplitEncodeAll(vs, 0);
    }
  }

  lemma OneByteZero(zero: seq<byte>)
    requires |zero| == 1 && zero[0] == 0
    ensures Decode(zero) == Done(UInt(0), 1)
  {
  }

  lemma TwoByteZero(data: seq<byte>)
    requires |data| == 2 && data[0] == 0x18 && data[1] == 0
    ensures Decode(data) == Done(UInt(0), 2)
  {
    var tail := data[1..2];
    assert tail[..0] == [];
    assert FromBigEndian(tail) == 0;
  }

  /** Two bytes that hold ONE item, the integer 0 in a longer head, split into TWO items. */
  lemma LongHeadSplitsInTwo(data: seq<byte>, zero: seq<byte>)
    requires data == [0x18, 0x00] && zero == [0x00]
    ensures Decode(data).Done? && Decode(data).used == |data|
    ensures SplitSpec(data) == Ok([zero, zero])
  {
    assert Encode(UInt(0)) == zero;
    OneByteZero(zero);
    TwoByteZero(data);
    ResumeStarts(data);
    ResumeStep([], data);
    assert data[1..] == zero && [] + [zero] == [zero];
    ResumeStep([zero], zero);
    assert zero[1..] == [] && [zero] + [zero] == [zero, zero];
    ResumeEnds([zero, zero]);
  }

  /**
    Assembling and splitting again gives the items back exactly when there is one
    and each is a single encoding.  Assembly's own check, that an item starts
    with a decodable value, is weaker: it lets trailing bytes through.
  */
  lemma SplitUndoesAssembleIff(items: seq<seq<byte>>)
    requires AllDecodable(items)
    ensures SplitSpec(Concat(items)) == Ok(items)
            <==> (items != [] && forall i :: 0 <= i < |items| ==> IsEncoding(items[i]))
  {
    var data := Concat(items);
    if SplitSpec(data) == Ok(items) {
      SplitYieldsEncodings(data, 0);
    }
    if items != [] && forall i :: 0 <= i < |items| ==> IsEncoding(items[i]) {
      var vs := ValuesOf(items);
      SplitEncodeAll(vs, 0);
    }
  }

  // ---- Arrays ----------------------------------------------------------------

  function Values(items: seq<seq<byte>>): (vs: seq<Cbor>)
    requires AllDecodable(items)
    ensures |vs| == |items| && AllEncodable(vs)
    ensures forall i :: 0 <= i < |items| ==> vs[i] == Decode(items[i]).v
  {
    seq(|items|, i requires 0 <= i < |items| => Decode(items[i]).v)
  }

  method AssembleCborArray(items: seq<seq<byte>>) returns (r: Result<seq<byte>, SequenceError>)
    requires |items| < TWO_64
    ensures AllDecodable(items) ==> r == Ok(Encode(Array(Values(items))))
    ensures !AllDecodable(items) ==>
              r.Err? && r.error.Deserialization? && r.error.item < |items|
              && !Decode(items[r.error.item]).Done? && AllDecodable(items[..r.error.item])
  {
    var values: seq<Cbor> := [];
    for i := 0 to |items|
      invariant AllDecodable(items[..i])
      invariant values == Values(items[..i])
    {
      if !Decode(items[i]).Done? {
        return Err(Deserialization(i));
      }
      values := values + [Decode(items[i]).v];
    }
    assert items[..|items|] == items;
    r := Ok(Encode(Array(values)));
  }

  function SplitCborArray(data: seq<byte>): Result<seq<seq<byte>>, SequenceError> {
    match Decode(data)
    case Short => Err(Deserialization(0))
    case Bad => Err(Deserialization(0))
    case Done(v, _) =>
      if !v.Array? then Err(NotAnArray)
      else if v.xs == [] then Err(EmptyArray)
      else Ok(EncodeEach(v.xs))
  }

  lemma {:induction false} EncodeEachAt(vs: seq<Cbor>, i: nat)
    requires AllEncodable(vs) && i < |vs|
    ensures EncodeEach(vs)[i] == Encode(vs[i])
  {
    if i > 0 {
      EncodeEachAt(vs[1..], i - 1);
    }
  }

  /** The array round trip keeps the items exactly when each is a single encoding; trailing bytes are dropped. */
  lemma SplitUndoesAssembleArrayIff(items: seq<seq<byte>>)
    requires |items| < TWO_64 && AllDecodable(items)
    ensures SplitCborArray(Encode(Array(Values(items)))) == Ok(items)
            <==> (items != [] && forall i :: 0 <= i < |items| ==> IsEncoding(items[i]))
  {
    var vs := Values(items);
    var data := Encode(Array(vs));
    DecodeEncode(Array(vs), []);
    assert data + [] == data;
    forall i | 0 <= i < |items|
      ensures EncodeEach(vs)[i] == Encode(vs[i])
    {
      EncodeEachAt(vs, i);
    }
    if items != [] && forall i :: 0 <= i < |items| ==> IsEncoding(items[i]) {
      assert EncodeEach(vs) == items;
    }
    if SplitCborArray(data) == Ok(items) {
      assert forall i :: 0 <= i < |items| ==> items[i] == EncodeEach(vs)[i];
    }
  }
}
