/**
  Whole lives of a sequence stream: what any calls of a handler put on the wire
  are the fragments of the items it emitted, in order.
*/
module SequenceRuns {
  import opened CborCodec
  import opened ItemReassembly
  import opened OutputStream
  import opened StreamContent
  import opened StreamRuns
  import opened Wrappers

  function ItemOf(op: Op): seq<ListItem> {
    match op
    case EmitListItem(item, meta) => [ListItem(item, meta)]
    case _ => []
  }

  /** The items a handler's calls emit, in order. */
  function ItemsOf(ops: seq<Op>): seq<ListItem> {
    if ops == [] then [] else ItemsOf(ops[..|ops| - 1]) + ItemOf(ops[|ops| - 1])
  }

  lemma {:induction false} ItemsOfOk(ops: seq<Op>)
    requires OpsOk(ops)
    ensures ItemsOk(ItemsOf(ops))
  {
    if ops != [] {
      ItemsOfOk(ops[..|ops| - 1]);
    }
  }

  lemma {:induction false} ListBodiesAppend(a: seq<ListItem>, b: seq<ListItem>, maxChunk: nat)
    requires maxChunk > 0 && ItemsOk(a) && ItemsOk(b)
    ensures ItemsOk(a + b) && ListBodies(a + b, maxChunk) == ListBodies(a, maxChunk) + ListBodies(b, maxChunk)
    decreases |a|
  {
    hide ItemBodies;
    if a == [] {
      assert a + b == b;
    } else {
      assert (a + b)[1..] == a[1..] + b;
      ListBodiesAppend(a[1..], b, maxChunk);
    }
  }

  lemma NoItems(maxChunk: nat)
    requires maxChunk > 0
    ensures ListBodies([], maxChunk) == []
  {
  }

  lemma OneItemBodies(item: ListItem, maxChunk: nat)
    requires maxChunk > 0 && Encodable(item.v)
    ensures ItemsOk([item]) && ListBodies([item], maxChunk) == ItemBodies(item, maxChunk)
  {
    hide ItemBodies;
    assert [item][1..] == [];
    assert ItemBodies(item, maxChunk) + [] == ItemBodies(item, maxChunk);
  }

  /** The chunks of the bodies, in order, and not yet all of them if something failed. */
  predicate Carries(s: Step, bodies: seq<Body>) {
    s.out.mode != Some(false) ==>
      s.out.buf == [] && Prefix(Bodies(s.out.wire), bodies) && (s.err.None? ==> Bodies(s.out.wire) == bodies)
  }

  lemma PrefixOfMore(a: seq<Body>, b: seq<Body>, c: seq<Body>)
    requires Prefix(a, b)
    ensures Prefix(a, b + c)
  {
  }

  lemma SentBodies(o: Out, bodies: seq<Body>)
    ensures var s := Emits(o, bodies);
            s.out.buf == o.buf && s.out.mode == o.mode
            && Prefix(Bodies(s.out.wire), Bodies(o.wire) + bodies)
            && (s.err.None? ==> Bodies(s.out.wire) == Bodies(o.wire) + bodies)
  {
    EmitsIsPrefix(o, bodies);
    var k := Taken(o, |bodies|);
    BodiesAppend(o.wire, o.sent, bodies[..k]);
    CutOfSum(Bodies(o.wire), bodies, k);
    hide Bodies, ChunksFrom, Prefix;
  }

  lemma CutOfSum(a: seq<Body>, b: seq<Body>, k: nat)
    requires k <= |b|
    ensures Prefix(a + b[..k], a + b) && (k == |b| ==> a + b[..k] == a + b)
  {
    assert a + b == a + b[..k] + b[k..];
  }

  /** One call on a stream that is not a scalar stream adds its item's fragments, or fails. */
  lemma DoCarries(o: Out, op: Op, maxChunk: nat)
    requires maxChunk > 0 && OpOk(op) && o.mode != Some(false) && o.buf == []
    ensures ItemsOk(ItemOf(op))
    ensures Carries(Do(o, op, maxChunk), Bodies(o.wire) + ListBodies(ItemOf(op), maxChunk))
  {
    hide Bodies, ListBodies, Emits, Split, Encode, FragmentBodies;
    assert Bodies(o.wire) + [] == Bodies(o.wire);
    NoItems(maxChunk);
    match op
    case Start(isSequence, unbounded) => BodiesOfOther(o.wire, StreamStart(isSequence, unbounded));
    case EmitListItem(item, meta) =>
      OneItemBodies(ListItem(item, meta), maxChunk);
      PrefixOfMore(Bodies(o.wire), Bodies(o.wire), ItemBodies(ListItem(item, meta), maxChunk));
      SentBodies(o, ItemBodies(ListItem(item, meta), maxChunk));
    case Close => BodiesOfOther(o.wire, StreamEnd(if o.unbounded then None else Some(o.sent)));
    case _ =>
  }

  /**
    A sequence stream, whatever its handler does, whenever its gate closes and
    whatever the channel refuses: the wire carries the fragments of the items
    emitted, in order, and all of them if no call failed.
  */
  lemma {:induction false} RunCarries(ops: seq<Op>, credit: Option<nat>, refused: set<nat>, maxChunk: nat)
    requires maxChunk > 0 && OpsOk(ops)
    ensures ItemsOk(ItemsOf(ops))
    ensures Carries(Run(Opened(credit, refused), ops, maxChunk), ListBodies(ItemsOf(ops), maxChunk))
  {
    ItemsOfOk(ops);
    if ops != [] {
      var before, op := ops[..|ops| - 1], ops[|ops| - 1];
      RunCarries(before, credit, refused, maxChunk);
      var s := Run(Opened(credit, refused), before, maxChunk);
      ItemsOfOk(before);
      if s.err.None? {
        if s.out.mode == Some(false) {
          ModeStays(s.out, op, maxChunk);
        } else {
          DoCarries(s.out, op, maxChunk);
          ListBodiesAppend(ItemsOf(before), ItemOf(op), maxChunk);
        }
      } else {
        FailedCarries(s, before, op, maxChunk);
      }
      hide Do, Carries, ListBodies;
    }
  }

  lemma FailedCarries(s: Step, before: seq<Op>, op: Op, maxChunk: nat)
    requires maxChunk > 0 && OpsOk(before) && OpOk(op) && s.err.Some? && ItemsOk(ItemsOf(before))
    requires Carries(s, ListBodies(ItemsOf(before), maxChunk))
    ensures ItemsOk(ItemOf(op)) && Carries(s, ListBodies(ItemsOf(before) + ItemOf(op), maxChunk))
  {
    hide ListBodies;
    ListBodiesAppend(ItemsOf(before), ItemOf(op), maxChunk);
    if s.out.mode != Some(false) {
      PrefixOfMore(Bodies(s.out.wire), ListBodies(ItemsOf(before), maxChunk), ListBodies(ItemOf(op), maxChunk));
    }
  }

  lemma ModeStays(o: Out, op: Op, maxChunk: nat)
    requires maxChunk > 0 && OpOk(op) && o.mode.Some?
    ensures Do(o, op, maxChunk).out.mode == o.mode
  {
    match op
    case Write(data, clock) =>
      if data != [] {
        var (after, due) := Coalesce(o, data, clock);
        if due.Some? {
          EmitsIsPrefix(after, ByteBodies(Split(due.value, maxChunk)));
        }
      }
    case EmitCbor(v, clock) => ValueModeStays(o, v, clock, maxChunk);
    case EmitListItem(item, meta) =>
      EmitsIsPrefix(o, FragmentBodies(Split(Encode(item), maxChunk), meta));
    case Flush => FlushModeStays(o, maxChunk);
    case Close => FlushModeStays(o.(closed := true), maxChunk);
    case _ =>
  }

  lemma FlushModeStays(o: Out, maxChunk: nat)
    requires maxChunk > 0
    ensures DoFlush(o, maxChunk).out.mode == o.mode
  {
    EmitsIsPrefix(o.(buf := [], oldest := None), ByteBodies(Split(o.buf, maxChunk)));
  }

  lemma ValueModeStays(o: Out, v: Cbor, clock: Clock, maxChunk: nat)
    requires maxChunk > 0
    ensures DoValue(o, v, maxChunk).out.mode == o.mode
    ensures v.Bytes? ==> DoBytes(o, v.b, clock, maxChunk).out.mode == o.mode
  {
    FlushModeStays(o, maxChunk);
    var flushed := DoFlush(o, maxChunk).out;
    match v
    case Bytes(b) =>
      if b != [] {
        var (after, due) := Coalesce(o, b, clock);
        if due.Some? {
          EmitsIsPrefix(after, ByteBodies(Split(due.value, maxChunk)));
        }
      }
      EmitsIsPrefix(flushed, [Whole(v)]);
    case Text(b) => EmitsIsPrefix(flushed, TextBodies(SplitText(b, maxChunk).pieces));
    case Array(xs) => EmitsIsPrefix(flushed, ValueBodies(xs));
    case _ => EmitsIsPrefix(flushed, [Whole(v)]);
  }

  /** A sequence stream that was closed: its STREAM_START, all fragments of all items, and their exact count. */
  lemma ClosedSequenceIsComplete(ops: seq<Op>, credit: Option<nat>, refused: set<nat>, maxChunk: nat)
    requires maxChunk > 0 && OpsOk(ops) && NoClose(ops)
    requires var s := Run(Opened(credit, refused), ops + [Close], maxChunk); s.err.None? && s.out.mode == Some(true)
    ensures ItemsOk(ItemsOf(ops))
    ensures var o := Run(Opened(credit, refused), ops + [Close], maxChunk).out;
            var bodies := ListBodies(ItemsOf(ops), maxChunk);
            o.wire == [StreamStart(true, o.unbounded)] + ChunksFrom(0, bodies)
                      + [StreamEnd(if o.unbounded then None else Some(|bodies|))]
  {
    var all := ops + [Close];
    assert all[..|ops|] == ops && all[|ops|] == Close;
    RunCarries(all, credit, refused, maxChunk);
    assert ItemsOf(all) == ItemsOf(ops) + [];
    assert ItemsOf(ops) + [] == ItemsOf(ops);
    hide ListBodies;
    ClosedStreamIsComplete(ops, credit, refused, maxChunk);
  }

  // ---- A list, emitted ------------------------------------------------------------------------

  function EmitAll(items: seq<ListItem>): seq<Op> {
    seq(|items|, i requires 0 <= i < |items| => EmitListItem(items[i].v, items[i].meta))
  }

  /** A handler that starts a sequence stream, emits each item of a list and closes. */
  function EmitList(items: seq<ListItem>, unbounded: bool): seq<Op> {
    [Start(true, unbounded)] + EmitAll(items)
  }

  lemma EmitListSnoc(items: seq<ListItem>, unbounded: bool)
    requires items != []
    ensures var n, ops := |items| - 1, EmitList(items, unbounded);
            |ops| == n + 2 && ops[..n + 1] == EmitList(items[..n], unbounded)
            && ops[n + 1] == EmitListItem(items[n].v, items[n].meta)
  {
  }

  lemma EmitListOk(items: seq<ListItem>, unbounded: bool)
    requires ItemsOk(items)
    ensures OpsOk(EmitList(items, unbounded)) && NoClose(EmitList(items, unbounded))
  {
    hide Encodable;
  }

  lemma ItemsOfSnoc(ops: seq<Op>, op: Op)
    ensures ItemsOf(ops + [op]) == ItemsOf(ops) + ItemOf(op)
  {
    assert (ops + [op])[..|ops|] == ops;
  }

  lemma {:induction false} EmitListItems(items: seq<ListItem>, unbounded: bool)
    ensures ItemsOf(EmitList(items, unbounded)) == items
  {
    var ops := EmitList(items, unbounded);
    if items == [] {
      assert ops == [Start(true, unbounded)] && ops[..0] == [];
    } else {
      var n := |items| - 1;
      EmitListItems(items[..n], unbounded);
      EmitListSnoc(items, unbounded);
      ItemsOfSnoc(ops[..n + 1], ops[n + 1]);
      hide EmitList, ItemsOf;
      assert ops == ops[..n + 1] + [ops[n + 1]];
      assert items == items[..n] + [items[n]];
    }
  }

  /** The channel takes the stream's first n frames. */
  predicate TakesAll(refused: set<nat>, n: nat) {
    forall i :: 0 <= i < n ==> i !in refused
  }

  /** Where a list's emission stands, nothing having failed. */
  predicate Emitting(o: Out, unbounded: bool, refused: set<nat>, n: nat) {
    o.mode == Some(true) && o.buf == [] && o.unbounded == unbounded && !o.closed && o.credit.None?
    && o.refused == refused && |o.handed| == n
  }

  /** One item more, sent exactly if the channel takes its fragments. */
  lemma EmitNext(o: Out, item: ListItem, unbounded: bool, refused: set<nat>, n: nat, maxChunk: nat)
    requires maxChunk > 0 && Encodable(item.v) && Emitting(o, unbounded, refused, n) && TakesAll(refused, n)
    ensures var s, m := Do(o, EmitListItem(item.v, item.meta), maxChunk), |ItemBodies(item, maxChunk)|;
            (s.err.None? <==> TakesAll(refused, n + m))
            && (s.err.None? ==> Emitting(s.out, unbounded, refused, n + m))
  {
    EmitsIsPrefix(o, ItemBodies(item, maxChunk));
    hide ChunksFrom, ItemBodies;
  }

  /** No call failed exactly if the channel took the n frames sent. */
  predicate EmitsTo(s: Step, unbounded: bool, refused: set<nat>, n: nat) {
    (s.err.None? <==> TakesAll(refused, n)) && (s.err.None? ==> Emitting(s.out, unbounded, refused, n))
  }

  lemma EmitsToNext(s: Step, item: ListItem, unbounded: bool, refused: set<nat>, n: nat, maxChunk: nat)
    requires maxChunk > 0 && Encodable(item.v) && EmitsTo(s, unbounded, refused, n)
    ensures var next := if s.err.Some? then s else Do(s.out, EmitListItem(item.v, item.meta), maxChunk);
            EmitsTo(next, unbounded, refused, n + |ItemBodies(item, maxChunk)|)
  {
    hide Do, Emitting, TakesAll, ItemBodies;
    if s.err.None? {
      EmitNext(s.out, item, unbounded, refused, n, maxChunk);
    } else {
      TakesFewer(refused, n, n + |ItemBodies(item, maxChunk)|);
    }
  }

  lemma {:induction false} EmitListRuns(items: seq<ListItem>, unbounded: bool, refused: set<nat>, maxChunk: nat)
    requires maxChunk > 0 && ItemsOk(items)
    ensures OpsOk(EmitList(items, unbounded))
    ensures EmitsTo(Run(Opened(None, refused), EmitList(items, unbounded), maxChunk), unbounded, refused,
                    |ListBodies(items, maxChunk)| + 1)
  {
    EmitListOk(items, unbounded);
    if items == [] {
      var ops := EmitList(items, unbounded);
      assert ops == [Start(true, unbounded)] && ops[..0] == [];
    } else {
      hide ListBodies, ItemBodies, EmitList, OpsOk, OpOk, Do, EmitsTo, Run, Encodable, Fragments;
      var n := |items| - 1;
      var before, op := EmitList(items[..n], unbounded), EmitListItem(items[n].v, items[n].meta);
      EmitListRuns(items[..n], unbounded, refused, maxChunk);
      EmitOneMore(items, unbounded, n);
      RunNext(Opened(None, refused), before, op, maxChunk);
      OneItemBodies(items[n], maxChunk);
      ListBodiesAppend(items[..n], [items[n]], maxChunk);
      EmitsToNext(Run(Opened(None, refused), before, maxChunk), items[n], unbounded, refused,
                  |ListBodies(items[..n], maxChunk)| + 1, maxChunk);
    }
  }

  lemma TakesFewer(refused: set<nat>, m: nat, n: nat)
    requires m <= n && !TakesAll(refused, m)
    ensures !TakesAll(refused, n)
  {
  }

  lemma EmitOneMore(items: seq<ListItem>, unbounded: bool, n: nat)
    requires |items| == n + 1
    ensures items == items[..n] + [items[n]]
    ensures EmitList(items, unbounded)
         == EmitList(items[..n], unbounded) + [EmitListItem(items[n].v, items[n].meta)]
  {
  }

  lemma CloseList(o: Out, unbounded: bool, refused: set<nat>, n: nat, maxChunk: nat)
    requires maxChunk > 0 && Emitting(o, unbounded, refused, n)
    ensures Do(o, Close, maxChunk).err.None? <==> n !in refused
    ensures Do(o, Close, maxChunk).out.mode == Some(true) && Do(o, Close, maxChunk).out.unbounded == unbounded
  {
  }

  /**
    A list of items emitted on a sequence stream under an open gate: no call fails
    exactly if the channel takes each of its frames, and then the wire is
    STREAM_START, the fragments of the items in order, and STREAM_END with their
    count.
  */
  lemma ListIsSent(items: seq<ListItem>, unbounded: bool, refused: set<nat>, maxChunk: nat)
    requires maxChunk > 0 && ItemsOk(items)
    ensures OpsOk(EmitList(items, unbounded) + [Close])
    ensures var s, bodies := Run(Opened(None, refused), EmitList(items, unbounded) + [Close], maxChunk),
                             ListBodies(items, maxChunk);
            (s.err.None? <==> TakesAll(refused, |bodies| + 2))
            && (s.err.None? ==>
                  s.out.wire == [StreamStart(true, unbounded)] + ChunksFrom(0, bodies)
                                + [StreamEnd(if unbounded then None else Some(|bodies|))])
  {
    hide ListBodies, EmitList, Emitting, Do, Encodable, Fragments;
    var ops := EmitList(items, unbounded);
    EmitListOk(items, unbounded);
    EmitListItems(items, unbounded);
    EmitListRuns(items, unbounded, refused, maxChunk);
    RunNext(Opened(None, refused), ops, Close, maxChunk);
    var s := Run(Opened(None, refused), ops, maxChunk);
    hide Run;
    if s.err.None? {
      CloseList(s.out, unbounded, refused, |ListBodies(items, maxChunk)| + 1, maxChunk);
    }
    if Run(Opened(None, refused), ops + [Close], maxChunk).err.None? {
      ClosedSequenceIsComplete(ops, None, refused, maxChunk);
    }
  }
}
