/**
  The item codec: definite-length CBOR (section 3 of RFC 8949) over unsigned and
  negative integers, byte strings, text and arrays.  The encoder writes the shortest
  head; the decoder also reads longer ones: `CborSequence` is about that difference.
*/
module CborCodec {

  type byte = x: int | 0 <= x < 256
  type u64 = x: int | 0 <= x < 0x1_0000_0000_0000_0000

  const TWO_64: int := 0x1_0000_0000_0000_0000

  // Text is carried as its UTF-8 bytes.
  datatype Cbor =
    | UInt(n: u64)
    | NInt(n: u64)
    | Bytes(b: seq<byte>)
    | Text(b: seq<byte>)
    | Array(xs: seq<Cbor>)

  /** Lengths that fit the 64-bit head argument: every value a process can hold. */
  predicate Encodable(v: Cbor) {
    match v
    case UInt(_) => true
    case NInt(_) => true
    case Bytes(b) => |b| < TWO_64
    case Text(b) => |b| < TWO_64
    case Array(xs) => |xs| < TWO_64 && forall i :: 0 <= i < |xs| ==> Encodable(xs[i])
  }

  // ---- Heads ---------------------------------------------------------------

  /** The low k bytes of n, big-endian. */
  function BigEndian(n: nat, k: nat): (bs: seq<byte>)
    ensures |bs| == k
  {
    if k == 0 then [] else BigEndian(n / 256, k - 1) + [n % 256]
  }

  function FromBigEndian(bs: seq<byte>): nat {
    if bs == [] then 0 else FromBigEndian(bs[..|bs| - 1]) * 256 + bs[|bs| - 1]
  }

  function Pow256(k: nat): (p: nat)
    ensures p > 0
  {
    if k == 0 then 1 else 256 * Pow256(k - 1)
  }

  lemma {:induction false} BigEndianInverts(n: nat, k: nat)
    requires n < Pow256(k)
    ensures FromBigEndian(BigEndian(n, k)) == n
  {
    if k > 0 {
      BigEndianInverts(n / 256, k - 1);
      var bs := BigEndian(n, k);
      assert bs[..|bs| - 1] == BigEndian(n / 256, k - 1);
    }
  }

  lemma {:induction false} FromBigEndianBounded(bs: seq<byte>)
    ensures FromBigEndian(bs) < Pow256(|bs|)
  {
    if bs != [] {
      FromBigEndianBounded(bs[..|bs| - 1]);
    }
  }

  lemma Pow256Values()
    ensures Pow256(1) == 0x100 && Pow256(2) == 0x1_0000
    ensures Pow256(4) == 0x1_0000_0000 && Pow256(8) == TWO_64
  {
    assert Pow256(2) == 256 * Pow256(1);
    assert Pow256(3) == 256 * Pow256(2);
    assert Pow256(4) == 256 * Pow256(3);
    assert Pow256(5) == 256 * Pow256(4);
    assert Pow256(6) == 256 * Pow256(5);
    assert Pow256(7) == 256 * Pow256(6);
  }

  type Major = m: int | 0 <= m < 8

  /** How many bytes after the first the shortest head for n takes. */
  function ShortestTail(n: u64): (k: nat)
    ensures k in {0, 1, 2, 4, 8}
  {
    if n < 24 then 0 else if n < 0x100 then 1 else if n < 0x1_0000 then 2
    else if n < 0x1_0000_0000 then 4 else 8
  }

  /** The "additional information" that announces a tail of k bytes. */
  function TailCode(k: nat): byte
    requires k in {1, 2, 4, 8}
  {
    if k == 1 then 24 else if k == 2 then 25 else if k == 4 then 26 else 27
  }

  function EncodeHead(major: Major, n: u64): (bs: seq<byte>)
    ensures |bs| == 1 + ShortestTail(n)
  {
    var k := ShortestTail(n);
    if k == 0 then [major * 32 + n] else [major * 32 + TailCode(k)] + BigEndian(n, k)
  }

  datatype HeadParse = Head(major: Major, arg: u64, len: nat) | HeadShort | HeadBad

  function TailLength(info: byte): nat
    requires 24 <= info < 28
  {
    if info == 24 then 1 else if info == 25 then 2 else if info == 26 then 4 else 8
  }

  /** Reads one head, of any width.  Info 28 to 31 is reserved or indefinite. */
  function DecodeHead(b: seq<byte>): (h: HeadParse)
    ensures h.Head? ==> 1 <= h.len <= |b| && 1 + ShortestTail(h.arg) <= h.len
  {
    if b == [] then HeadShort
    else
      var major, info := b[0] / 32, b[0] % 32;
      if info < 24 then Head(major, info, 1)
      else if info >= 28 then HeadBad
      else if |b| < 1 + TailLength(info) then HeadShort
      else
        var k := TailLength(info);
        FromBigEndianBounded(b[1..1 + k]);
        Pow256Values();
        Head(major, FromBigEndian(b[1..1 + k]), 1 + k)
  }

  lemma DecodeEncodeHead(major: Major, n: u64, rest: seq<byte>)
    ensures DecodeHead(EncodeHead(major, n) + rest) == Head(major, n, |EncodeHead(major, n)|)
  {
    var k := ShortestTail(n);
    var b := EncodeHead(major, n) + rest;
    if k > 0 {
      Pow256Values();
      BigEndianInverts(n, k);
      assert b[1..1 + k] == BigEndian(n, k);
    }
  }

  lemma DecodeHeadExtends(b: seq<byte>, s: seq<byte>)
    requires !DecodeHead(b).HeadShort?
    ensures DecodeHead(b + s) == DecodeHead(b)
  {
    if b[0] % 32 >= 24 && b[0] % 32 < 28 {
      var k := TailLength(b[0] % 32);
      assert (b + s)[1..1 + k] == b[1..1 + k];
    }
  }

  // ---- Items ---------------------------------------------------------------

  function Encode(v: Cbor): (bs: seq<byte>)
    requires Encodable(v)
    ensures |bs| >= 1
    decreases v, 0
  {
    match v
    case UInt(n) => EncodeHead(0, n)
    case NInt(n) => EncodeHead(1, n)
    case Bytes(b) => EncodeHead(2, |b|) + b
    case Text(b) => EncodeHead(3, |b|) + b
    case Array(xs) => EncodeHead(4, |xs|) + EncodeAll(xs)
  }

  predicate AllEncodable(vs: seq<Cbor>) {
    forall i :: 0 <= i < |vs| ==> Encodable(vs[i])
  }

  /** The CBOR sequence (section 2 of RFC 8742) of the items: their plain concatenation. */
  function EncodeAll(vs: seq<Cbor>): (bs: seq<byte>)
    requires AllEncodable(vs)
    ensures |bs| >= |vs|
    decreases vs, 1
  {
    if vs == [] then [] else Encode(vs[0]) + EncodeAll(vs[1..])
  }

  datatype Parse = Done(v: Cbor, used: nat) | Short | Bad
  datatype ParseMany = Many(vs: seq<Cbor>, used: nat) | ManyShort | ManyBad

  /** Decodes one item from the front of b.  Majors outside the subset are Bad. */
  function Decode(b: seq<byte>): (p: Parse)
    ensures p.Done? ==> 1 <= p.used <= |b| && Encodable(p.v)
    decreases |b|, 0
  {
    match DecodeHead(b)
    case HeadShort => Short
    case HeadBad => Bad
    case Head(major, n, len) =>
      if major == 0 then Done(UInt(n), len)
      else if major == 1 then Done(NInt(n), len)
      else if major == 2 || major == 3 then
        if |b| - len < n then Short
        else
          var body := b[len..len + n];
          Done(if major == 2 then Bytes(body) else Text(body), len + n)
      else if major == 4 then
        match DecodeMany(b[len..], n)
        case ManyShort => Short
        case ManyBad => Bad
        case Many(vs, used) => Done(Array(vs), len + used)
      else Bad
  }

  function DecodeMany(b: seq<byte>, k: nat): (p: ParseMany)
    ensures p.Many? ==> p.used <= |b| && |p.vs| == k && AllEncodable(p.vs)
    decreases |b|, 1
  {
    if k == 0 then Many([], 0)
    else
      match Decode(b)
      case Short => ManyShort
      case Bad => ManyBad
      case Done(v, used) =>
        match DecodeMany(b[used..], k - 1)
        case ManyShort => ManyShort
        case ManyBad => ManyBad
        case Many(vs, more) => Many([v] + vs, used + more)
  }

  // ---- Laws ----------------------------------------------------------------

  /** An encoded item decodes to itself and consumes exactly itself, whatever follows. */
  lemma {:induction false} DecodeEncode(v: Cbor, rest: seq<byte>)
    requires Encodable(v)
    ensures Decode(Encode(v) + rest) == Done(v, |Encode(v)|)
    decreases v, 0
  {
    match v
    case UInt(n) => DecodeEncodeHead(0, n, rest);
    case NInt(n) => DecodeEncodeHead(1, n, rest);
    case Bytes(b) => DecodeEncodeBody(2, b, rest);
    case Text(b) => DecodeEncodeBody(3, b, rest);
    case Array(xs) =>
      DecodeManyEncodeAll(xs, rest);
      DecodeEncodeArray(xs, EncodeAll(xs), rest);
  }

  lemma DecodeEncodeArray(xs: seq<Cbor>, body: seq<byte>, rest: seq<byte>)
    requires |xs| < TWO_64 && DecodeMany(body + rest, |xs|) == Many(xs, |body|)
    ensures var bs := EncodeHead(4, |xs|) + body;
            Decode(bs + rest) == Done(Array(xs), |bs|)
  {
    var head := EncodeHead(4, |xs|);
    assert head + body + rest == head + (body + rest);
    DecodeEncodeHead(4, |xs|, body + rest);
    assert (head + body + rest)[|head|..] == body + rest;
  }

  lemma DecodeEncodeBody(major: Major, b: seq<byte>, rest: seq<byte>)
    requires |b| < TWO_64 && (major == 2 || major == 3)
    ensures var bs := EncodeHead(major, |b|) + b;
            Decode(bs + rest) == Done(if major == 2 then Bytes(b) else Text(b), |bs|)
  {
    var head := EncodeHead(major, |b|);
    assert head + b + rest == head + (b + rest);
    DecodeEncodeHead(major, |b|, b + rest);
    assert (head + b + rest)[|head|..|head| + |b|] == b;
  }

  lemma {:induction false} DecodeManyEncodeAll(vs: seq<Cbor>, rest: seq<byte>)
    requires AllEncodable(vs)
    ensures DecodeMany(EncodeAll(vs) + rest, |vs|) == Many(vs, |EncodeAll(vs)|)
    decreases vs, 1
  {
    hide Decode, Encode, DecodeHead;
    if vs != [] {
      var first, more := Encode(vs[0]), EncodeAll(vs[1..]);
      assert EncodeAll(vs) + rest == first + (more + rest);
      DecodeEncode(vs[0], more + rest);
      assert (first + (more + rest))[|first|..] == more + rest;
      DecodeManyEncodeAll(vs[1..], rest);
      assert [vs[0]] + vs[1..] == vs;
    }
  }

  /** A verdict reached on some bytes is not changed by bytes that come after. */
  lemma {:induction false} DecodeExtends(b: seq<byte>, s: seq<byte>)
    requires !Decode(b).Short?
    ensures Decode(b + s) == Decode(b)
    decreases |b|, 0
  {
    DecodeHeadExtends(b, s);
    match DecodeHead(b)
    case HeadBad =>
    case Head(major, n, len) =>
      if major == 2 || major == 3 {
        assert (b + s)[len..len + n] == b[len..len + n];
      } else if major == 4 {
        assert (b + s)[len..] == b[len..] + s;
        DecodeManyExtends(b[len..], n, s);
      }
  }

  lemma {:induction false} DecodeManyExtends(b: seq<byte>, k: nat, s: seq<byte>)
    requires !DecodeMany(b, k).ManyShort?
    ensures DecodeMany(b + s, k) == DecodeMany(b, k)
    decreases |b|, 1
  {
    if k > 0 {
      DecodeExtends(b, s);
      match Decode(b)
      case Bad =>
      case Done(v, used) =>
        assert (b + s)[used..] == b[used..] + s;
        DecodeManyExtends(b[used..], k - 1, s);
    }
  }

  /** Prefix-freeness: a proper prefix of an item is only ever "not yet enough". */
  lemma ProperPrefixIsShort(v: Cbor, k: nat)
    requires Encodable(v) && k < |Encode(v)|
    ensures Decode(Encode(v)[..k]) == Short
  {
    var whole, part := Encode(v), Encode(v)[..k];
    if !Decode(part).Short? {
      DecodeExtends(part, whole[k..]);
      assert part + whole[k..] == whole == whole + [];
      DecodeEncode(v, []);
    }
  }

  /** Re-encoding never takes more bytes than were read, and as many only if they are the same bytes. */
  lemma {:induction false} EncodeNotLonger(b: seq<byte>)
    requires Decode(b).Done?
    ensures |Encode(Decode(b).v)| <= Decode(b).used
    decreases |b|, 0
  {
    var h := DecodeHead(b);
    if h.major == 4 {
      EncodeAllNotLonger(b[h.len..], h.arg);
    }
  }

  lemma {:induction false} EncodeAllNotLonger(b: seq<byte>, k: nat)
    requires DecodeMany(b, k).Many?
    ensures |EncodeAll(DecodeMany(b, k).vs)| <= DecodeMany(b, k).used
    decreases |b|, 1
  {
    if k > 0 {
      var p := Decode(b);
      EncodeNotLonger(b);
      EncodeAllNotLonger(b[p.used..], k - 1);
      var vs := DecodeMany(b, k).vs;
      assert vs[1..] == DecodeMany(b[p.used..], k - 1).vs;
    }
  }
}
