/**
  The receiving end of a sequence stream: fragments back into items.

  `Feed` is one chunk's arrival.  The theorems compose it with the sender's
  fragmenting for every list of items, every chunk size and every cut.
*/
module ItemReassembly {
  import opened CborCodec
  import opened OutputStream
  import opened StreamContent
  import opened Wrappers

  datatype Reassembly = Reassembly(buf: seq<byte>, itemMeta: Option<Meta>)
  datatype Delivery = Item(v: Cbor, meta: Option<Meta>) | DecodeFailed

  // What a reader of a stream can be told instead of a value.
  datatype StreamError = Abandoned | Protocol | Decoding | Remote
  datatype Checksum = Good | Wrong | Missing

  // `continued` counts the credits returned for continuation fragments.
  datatype Fed = Fed(state: Reassembly, out: seq<Delivery>, continued: nat)

  const Empty := Reassembly([], None)
  const Fresh := Fed(Empty, [], 0)

  /** Everything the buffer holds whole, item by item; a step is as long as the item's re-encoding. */
  function DecodeLoop(s: Reassembly): (r: (Reassembly, seq<Delivery>))
    decreases |s.buf|
  {
    if s.buf == [] then (s, [])
    else
      match Decode(s.buf)
      case Short => (s, [])
      case Bad => (s.(buf := []), [DecodeFailed])
      case Done(v, _) =>
        EncodeNotLonger(s.buf);
        var (after, out) := DecodeLoop(Reassembly(s.buf[|Encode(v)|..], None));
        (after, [Item(v, s.itemMeta)] + out)
  }

  function Feed(s: Reassembly, bytes: seq<byte>, meta: Option<Meta>): Fed {
    var first := s.buf == [];
    var (after, out) := DecodeLoop(Reassembly(s.buf + bytes, if first then meta else s.itemMeta));
    Fed(after, out, if first then 0 else 1)
  }

  predicate Fragments(bodies: seq<Body>) {
    forall i :: 0 <= i < |bodies| ==> bodies[i].Fragment?
  }

  /** One more chunk on top of what was fed before. */
  function FeedInto(f: Fed, body: Body): Fed
    requires body.Fragment?
  {
    var one := Feed(f.state, body.bytes, body.meta);
    Fed(one.state, f.out + one.out, f.continued + one.continued)
  }

  function FeedAll(f: Fed, bodies: seq<Body>): Fed
    requires Fragments(bodies)
    decreases |bodies|
  {
    if bodies == [] then f else FeedAll(FeedInto(f, bodies[0]), bodies[1..])
  }

  // ---- The sender's side --------------------------------------------------------------

  datatype ListItem = ListItem(v: Cbor, meta: Option<Meta>)

  predicate ItemsOk(items: seq<ListItem>) {
    forall i :: 0 <= i < |items| ==> Encodable(items[i].v)
  }

  function ItemBodies(item: ListItem, maxChunk: nat): seq<Body>
    requires maxChunk > 0 && Encodable(item.v)
  {
    FragmentBodies(Split(Encode(item.v), maxChunk), item.meta)
  }

  /** The chunks a list of items is sent in. */
  function ListBodies(items: seq<ListItem>, maxChunk: nat): (bodies: seq<Body>)
    requires maxChunk > 0 && ItemsOk(items)
    ensures Fragments(bodies)
  {
    if items == [] then [] else ItemBodies(items[0], maxChunk) + ListBodies(items[1..], maxChunk)
  }

  function Deliveries(items: seq<ListItem>): (out: seq<Delivery>)
    ensures |out| == |items|
  {
    seq(|items|, i requires 0 <= i < |items| => Item(items[i].v, items[i].meta))
  }

  // ---- One item -------------------------------------------------------------------------

  lemma {:induction false} FeedAllAppend(f: Fed, a: seq<Body>, b: seq<Body>)
    requires Fragments(a) && Fragments(b)
    ensures FeedAll(f, a + b) == FeedAll(FeedAll(f, a), b)
    decreases |a|
  {
    if a == [] {
      assert a + b == b;
    } else {
      assert (a + b)[1..] == a[1..] + b;
      FeedAllAppend(FeedInto(f, a[0]), a[1..], b);
    }
  }

  lemma FeedAllSnoc(f: Fed, bodies: seq<Body>, last: Body)
    requires Fragments(bodies) && last.Fragment?
    ensures Fragments(bodies + [last]) && FeedAll(f, bodies + [last]) == FeedInto(FeedAll(f, bodies), last)
  {
    FeedAllAppend(f, bodies, [last]);
  }

  /** A fragment that leaves the item incomplete is only buffered. */
  lemma FeedInside(v: Cbor, from: nat, to: nat, held: Option<Meta>, meta: Option<Meta>)
    requires Encodable(v) && from < to < |Encode(v)|
    ensures Feed(Reassembly(Encode(v)[..from], held), Encode(v)[from..to], meta)
         == Fed(Reassembly(Encode(v)[..to], if from == 0 then meta else held), [], if from == 0 then 0 else 1)
  {
    assert Encode(v)[..from] + Encode(v)[from..to] == Encode(v)[..to];
    ProperPrefixIsShort(v, to);
  }

  /** The last fragment completes it, with nothing left over. */
  lemma FeedLast(v: Cbor, from: nat, held: Option<Meta>, meta: Option<Meta>)
    requires Encodable(v) && from < |Encode(v)|
    ensures Feed(Reassembly(Encode(v)[..from], held), Encode(v)[from..], meta)
         == Fed(Empty, [Item(v, if from == 0 then meta else held)], if from == 0 then 0 else 1)
  {
    hide Encode, Decode;
    var whole := Encode(v);
    assert whole[..from] + whole[from..] == whole == whole + [];
    DecodeEncode(v, []);
    assert whole[|whole|..] == [];
    assert DecodeLoop(Empty) == (Empty, []);
  }

  /** The fragments of an item from some byte on. */
  function RestBodies(v: Cbor, from: nat, maxChunk: nat): seq<Body>
    requires maxChunk > 0 && Encodable(v) && from <= |Encode(v)|
  {
    FragmentBodies(Split(Encode(v)[from..], maxChunk), None)
  }

  lemma RestBodiesStep(v: Cbor, from: nat, maxChunk: nat)
    requires maxChunk > 0 && Encodable(v) && from < |Encode(v)|
    ensures var n, rest := Min(|Encode(v)| - from, maxChunk), RestBodies(v, from, maxChunk);
            rest == [Fragment(Encode(v)[from..from + n], None)] + RestBodies(v, from + n, maxChunk)
  {
    hide Encode;
    CutFragments(Encode(v), from, Min(|Encode(v)| - from, maxChunk), maxChunk, None);
  }

  lemma {:induction false} FeedRest(f: Fed, item: ListItem, from: nat, maxChunk: nat)
    requires maxChunk > 0 && Encodable(item.v) && 0 < from < |Encode(item.v)|
    requires f.state == Reassembly(Encode(item.v)[..from], item.meta)
    ensures var rest := RestBodies(item.v, from, maxChunk);
            FeedAll(f, rest) == Fed(Empty, f.out + [Item(item.v, item.meta)], f.continued + |rest|)
    decreases |Encode(item.v)| - from
  {
    hide Feed, Encode, Decode;
    var whole := Encode(item.v);
    var n := Min(|whole| - from, maxChunk);
    var first, rest := Fragment(whole[from..from + n], None), RestBodies(item.v, from + n, maxChunk);
    RestBodiesStep(item.v, from, maxChunk);
    FeedPiece(f, item, from, n, None);
    if from + n < |whole| {
      FeedRest(FeedInto(f, first), item, from + n, maxChunk);
    }
  }

  /** The next n bytes of an item arrive. */
  lemma FeedPiece(f: Fed, item: ListItem, from: nat, n: nat, meta: Option<Meta>)
    requires Encodable(item.v) && 0 < n && from + n <= |Encode(item.v)|
    requires f.state == if from == 0 then Empty else Reassembly(Encode(item.v)[..from], item.meta)
    requires from == 0 ==> meta == item.meta
    ensures var whole := Encode(item.v);
            var after := FeedInto(f, Fragment(whole[from..from + n], meta));
            after.continued == f.continued + (if from == 0 then 0 else 1)
            && (from + n < |whole| ==> after.state == Reassembly(whole[..from + n], item.meta) && after.out == f.out)
            && (from + n == |whole| ==> after.state == Empty && after.out == f.out + [Item(item.v, item.meta)])
  {
    hide Feed, Encode, Decode;
    var whole := Encode(item.v);
    assert whole[..0] == [];
    assert f.state == Reassembly(whole[..from], f.state.itemMeta);
    if from + n < |whole| {
      FeedInside(item.v, from, from + n, f.state.itemMeta, meta);
      assert f.out + [] == f.out;
    } else {
      assert whole[from..from + n] == whole[from..];
      FeedLast(item.v, from, f.state.itemMeta, meta);
    }
  }

  lemma CutFragments(data: seq<byte>, from: nat, n: nat, maxChunk: nat, meta: Option<Meta>)
    requires maxChunk > 0 && from < |data| && n == Min(|data| - from, maxChunk)
    ensures var all := FragmentBodies(Split(data[from..], maxChunk), meta);
            |all| > 0 && all[0] == Fragment(data[from..from + n], meta)
            && all[1..] == FragmentBodies(Split(data[from + n..], maxChunk), None)
  {
    Slide(data, from, n);
    assert Split(data[from..], maxChunk) == [data[from..][..n]] + Split(data[from..][n..], maxChunk);
  }

  lemma ItemBodiesStep(item: ListItem, maxChunk: nat)
    requires maxChunk > 0 && Encodable(item.v)
    ensures var n := Min(|Encode(item.v)|, maxChunk);
            ItemBodies(item, maxChunk)
            == [Fragment(Encode(item.v)[0..n], item.meta)] + RestBodies(item.v, n, maxChunk)
  {
    assert Encode(item.v)[0..] == Encode(item.v);
    CutFragments(Encode(item.v), 0, Min(|Encode(item.v)|, maxChunk), maxChunk, item.meta);
  }

  lemma NotEmpty(v: Cbor)
    requires Encodable(v)
    ensures |Encode(v)| > 0
  {
  }

  /** One item through: itself, its metadata, an empty buffer, and one credit back per further fragment. */
  lemma FeedItem(f: Fed, item: ListItem, maxChunk: nat)
    requires maxChunk > 0 && Encodable(item.v) && f.state == Empty
    ensures var bodies := ItemBodies(item, maxChunk);
            |bodies| >= 1
            && FeedAll(f, bodies) == Fed(Empty, f.out + [Item(item.v, item.meta)], f.continued + |bodies| - 1)
  {
    hide Encode, Decode, Feed, ItemBodies;
    var n := Min(|Encode(item.v)|, maxChunk);
    NotEmpty(item.v);
    ItemBodiesStep(item, maxChunk);
    FeedPiece(f, item, 0, n, item.meta);
    var first, rest := Fragment(Encode(item.v)[0..n], item.meta), RestBodies(item.v, n, maxChunk);
    if n < |Encode(item.v)| {
      FeedRest(FeedInto(f, first), item, n, maxChunk);
    }
  }

  // ---- Lists of items ---------------------------------------------------------------------

  lemma DeliveriesCons(items: seq<ListItem>)
    requires items != []
    ensures Deliveries(items) == [Item(items[0].v, items[0].meta)] + Deliveries(items[1..])
  {
  }

  lemma {:induction false} FeedList(f: Fed, items: seq<ListItem>, maxChunk: nat)
    requires maxChunk > 0 && ItemsOk(items) && f.state == Empty
    ensures var bodies := ListBodies(items, maxChunk);
            |bodies| >= |items|
            && FeedAll(f, bodies) == Fed(Empty, f.out + Deliveries(items), f.continued + |bodies| - |items|)
    decreases |items|
  {
    if items == [] {
      assert f.out + [] == f.out;
      assert FeedAll(f, []) == f;
    } else {
      hide FeedAll, ItemBodies, Encodable, Deliveries;
      FeedItem(f, items[0], maxChunk);
      var after := FeedAll(f, ItemBodies(items[0], maxChunk));
      FeedList(after, items[1..], maxChunk);
      FeedAllAppend(f, ItemBodies(items[0], maxChunk), ListBodies(items[1..], maxChunk));
      DeliveriesCons(items);
      assert f.out + [Item(items[0].v, items[0].meta)] + Deliveries(items[1..])
          == f.out + ([Item(items[0].v, items[0].meta)] + Deliveries(items[1..]));
    }
  }

  /**
    The round trip of a sequence stream: every item with its metadata, in order,
    nothing left in the buffer, and a credit back on arrival for every fragment
    but one per item.
  */
  lemma ItemsRoundTrip(items: seq<ListItem>, maxChunk: nat)
    requires maxChunk > 0 && ItemsOk(items)
    ensures var bodies := ListBodies(items, maxChunk);
            |bodies| >= |items| && FeedAll(Fresh, bodies) == Fed(Empty, Deliveries(items), |bodies| - |items|)
  {
    FeedList(Fresh, items, maxChunk);
    assert [] + Deliveries(items) == Deliveries(items);
  }

  // ---- Whatever bytes arrive ------------------------------------------------------------------

  /** The metadata held goes with the first item, and the others have none. */
  function Delivered(vs: seq<Cbor>, meta: Option<Meta>): seq<Delivery> {
    seq(|vs|, i requires 0 <= i < |vs| => Item(vs[i], if i == 0 then meta else None))
  }

  predicate Malformed(rest: seq<byte>) {
    rest != [] && Decode(rest).Bad?
  }

  lemma {:induction false} LoopReads(vs: seq<Cbor>, rest: seq<byte>, meta: Option<Meta>)
    requires AllEncodable(vs) && (rest == [] || !Decode(rest).Done?)
    ensures DecodeLoop(Reassembly(EncodeAll(vs) + rest, meta))
         == (Reassembly(if Malformed(rest) then [] else rest, if vs == [] then meta else None),
             Delivered(vs, meta) + if Malformed(rest) then [DecodeFailed] else [])
    decreases |vs|
  {
    hide Encode, Decode, DecodeLoop, Encodable;
    var told := if Malformed(rest) then [DecodeFailed] else [];
    if vs == [] {
      assert EncodeAll(vs) + rest == rest;
      assert Delivered(vs, meta) + told == told;
      LoopEnds(rest, meta);
    } else {
      var more := EncodeAll(vs[1..]) + rest;
      LoopReads(vs[1..], rest, None);
      assert EncodeAll(vs) + rest == Encode(vs[0]) + more;
      LoopStep(vs[0], more, meta);
      assert Delivered(vs, meta) + told == [Item(vs[0], meta)] + (Delivered(vs[1..], None) + told);
    }
  }

  lemma LoopEnds(rest: seq<byte>, meta: Option<Meta>)
    requires rest == [] || !Decode(rest).Done?
    ensures DecodeLoop(Reassembly(rest, meta))
         == (Reassembly(if Malformed(rest) then [] else rest, meta), if Malformed(rest) then [DecodeFailed] else [])
  {
    hide Decode;
  }

  lemma LoopStep(v: Cbor, more: seq<byte>, meta: Option<Meta>)
    requires Encodable(v)
    ensures var (after, out) := DecodeLoop(Reassembly(more, None));
            DecodeLoop(Reassembly(Encode(v) + more, meta)) == (after, [Item(v, meta)] + out)
  {
    hide Encode, Decode;
    DecodeEncode(v, more);
    NotEmpty(v);
    assert (Encode(v) + more)[|Encode(v)|..] == more;
  }

  /**
    Whatever bytes a chunk adds: every whole item among those held is delivered, the
    first with the metadata held; what is only the start of one is kept; and what is
    malformed is told of once, and dropped with all behind it.
  */
  lemma FeedReads(s: Reassembly, bytes: seq<byte>, meta: Option<Meta>, vs: seq<Cbor>, rest: seq<byte>)
    requires AllEncodable(vs) && s.buf + bytes == EncodeAll(vs) + rest && (rest == [] || !Decode(rest).Done?)
    ensures var (fed, held) := (Feed(s, bytes, meta), if s.buf == [] then meta else s.itemMeta);
            fed.out == Delivered(vs, held) + (if Malformed(rest) then [DecodeFailed] else [])
            && fed.state.buf == (if Malformed(rest) then [] else rest)
            && (vs == [] ==> fed.state.itemMeta == held)
            && fed.continued == if s.buf == [] then 0 else 1
  {
    LoopReads(vs, rest, if s.buf == [] then meta else s.itemMeta);
  }

  // ---- Streams cut short -------------------------------------------------------------------

  /** What a cut after k chunks delivers: n whole items, and an empty buffer exactly between two items. */
  ghost predicate CutGives(items: seq<ListItem>, before: seq<Delivery>, fed: Fed, n: nat, k: nat, maxChunk: nat)
    requires maxChunk > 0 && ItemsOk(items)
  {
    n <= |items| && fed.out == before + Deliveries(items[..n])
    && |ListBodies(items[..n], maxChunk)| <= k
    && (fed.state.buf == [] <==> k == |ListBodies(items[..n], maxChunk)|)
    && (n < |items| ==> k < |ListBodies(items[..n + 1], maxChunk)|)
  }

  lemma {:induction false} FeedSomeRest(f: Fed, item: ListItem, from: nat, k: nat, maxChunk: nat)
    requires maxChunk > 0 && Encodable(item.v) && 0 < from < |Encode(item.v)|
    requires f.state == Reassembly(Encode(item.v)[..from], item.meta)
    requires k < |RestBodies(item.v, from, maxChunk)|
    ensures var fed := FeedAll(f, RestBodies(item.v, from, maxChunk)[..k]);
            fed.out == f.out && fed.state.buf != []
    decreases k
  {
    hide Feed, Encode, Decode;
    if k > 0 {
      var whole := Encode(item.v);
      var n := Min(|whole| - from, maxChunk);
      var first, rest := Fragment(whole[from..from + n], None), RestBodies(item.v, from + n, maxChunk);
      RestBodiesStep(item.v, from, maxChunk);
      FeedPiece(f, item, from, n, None);
      FeedSomeRest(FeedInto(f, first), item, from + n, k - 1, maxChunk);
      assert ([first] + rest)[..k] == [first] + rest[..k - 1];
    }
  }

  /** The chunks of an item, cut before the last, only ever fill the buffer. */
  lemma FeedSome(f: Fed, item: ListItem, k: nat, maxChunk: nat)
    requires maxChunk > 0 && Encodable(item.v) && f.state == Empty && 0 < k < |ItemBodies(item, maxChunk)|
    ensures var fed := FeedAll(f, ItemBodies(item, maxChunk)[..k]);
            fed.out == f.out && fed.state.buf != []
  {
    hide Encode, Decode, Feed, ItemBodies;
    NotEmpty(item.v);
    var n := Min(|Encode(item.v)|, maxChunk);
    ItemBodiesStep(item, maxChunk);
    FeedPiece(f, item, 0, n, item.meta);
    var first, rest := Fragment(Encode(item.v)[0..n], item.meta), RestBodies(item.v, n, maxChunk);
    FeedSomeRest(FeedInto(f, first), item, n, k - 1, maxChunk);
    assert ([first] + rest)[..k] == [first] + rest[..k - 1];
  }

  /**
    A stream cut anywhere delivers exactly the items whose chunks all arrived, and
    the buffer tells: it is empty if and only if the cut fell between two items.
  */
  lemma {:induction false} CutDelivers(f: Fed, items: seq<ListItem>, k: nat, maxChunk: nat) returns (n: nat)
    requires maxChunk > 0 && ItemsOk(items) && k <= |ListBodies(items, maxChunk)| && f.state == Empty
    ensures CutGives(items, f.out, FeedAll(f, ListBodies(items, maxChunk)[..k]), n, k, maxChunk)
    decreases |items|
  {
    hide Feed, Encode, Decode;
    var bodies := ListBodies(items, maxChunk);
    assert f.out + [] == f.out;
    if items == [] || k == 0 {
      return 0;
    }
    var one, more := ItemBodies(items[0], maxChunk), ListBodies(items[1..], maxChunk);
    if k < |one| {
      assert bodies[..k] == one[..k];
      FeedSome(f, items[0], k, maxChunk);
      return 0;
    }
    FeedItem(f, items[0], maxChunk);
    var after := FeedAll(f, one);
    n := CutDelivers(after, items[1..], k - |one|, maxChunk);
    assert bodies[..k] == one + more[..k - |one|];
    FeedAllAppend(f, one, more[..k - |one|]);
    CutGivesLater(items, f.out, FeedAll(after, more[..k - |one|]), n, k, maxChunk);
    n := n + 1;
  }

  lemma CutGivesLater(items: seq<ListItem>, before: seq<Delivery>, fed: Fed, n: nat, k: nat, maxChunk: nat)
    requires maxChunk > 0 && ItemsOk(items) && items != [] && k >= |ItemBodies(items[0], maxChunk)|
    requires CutGives(items[1..], before + [Item(items[0].v, items[0].meta)], fed, n,
                      k - |ItemBodies(items[0], maxChunk)|, maxChunk)
    ensures CutGives(items, before, fed, n + 1, k, maxChunk)
  {
    CutLater(items, n, maxChunk);
    assert items[..n + 1][1..] == items[1..][..n];
  }

  lemma CutLater(items: seq<ListItem>, n: nat, maxChunk: nat)
    requires maxChunk > 0 && ItemsOk(items) && n < |items|
    ensures var one := ItemBodies(items[0], maxChunk);
            ListBodies(items[..n + 1], maxChunk) == one + ListBodies(items[1..][..n], maxChunk)
            && (n + 1 < |items| ==>
                  ListBodies(items[..n + 2], maxChunk) == one + ListBodies(items[1..][..n + 1], maxChunk))
  {
    assert items[..n + 1][1..] == items[1..][..n];
    if n + 1 < |items| {
      assert items[..n + 2][1..] == items[1..][..n + 1];
    }
  }

  // ---- The object ---------------------------------------------------------------------------

  class SeqReassembly {
    var buf: seq<byte>
    var itemMeta: Option<Meta>

    ghost function State(): Reassembly
      reads this
    {
      Reassembly(buf, itemMeta)
    }

    constructor ()
      ensures State() == Empty
    {
      buf, itemMeta := [], None;
    }

    /** One chunk: what it completes, and whether it is credited back at once. */
    method Accept(payload: seq<byte>, meta: Option<Meta>) returns (out: seq<Delivery>, continued: bool)
      modifies this
      ensures Fed(State(), out, if continued then 1 else 0) == Feed(old(State()), payload, meta)
    {
      hide Decode, Encode;
      continued := |buf| != 0;
      if !continued {
        itemMeta := meta;
      }
      buf := buf + payload;
      out := [];
      ghost var all := DecodeLoop(State());
      assert [] + all.1 == all.1;
      while |buf| > 0
        invariant var (after, more) := DecodeLoop(State()); all == (after, out + more)
        decreases |buf|
      {
        var decoded := Decode(buf);
        if decoded.Short? {
          assert out + [] == out;
          return;
        }
        if decoded.Bad? {
          out := out + [DecodeFailed];
          buf := [];
          return;
        }
        EncodeNotLonger(buf);
        ghost var more := DecodeLoop(Reassembly(buf[|Encode(decoded.v)|..], None)).1;
        assert out + ([Item(decoded.v, itemMeta)] + more) == out + [Item(decoded.v, itemMeta)] + more;
        buf := buf[|Encode(decoded.v)|..];
        out := out + [Item(decoded.v, itemMeta)];
        itemMeta := None;
      }
      assert out + [] == out;
    }
  }
}
