/**
  What a stream's chunks say, against what its handler wrote.

  A scalar stream is read as a run of atoms, so that chunk boundaries do not
  count: a byte is a byte wherever it was cut.
*/
module StreamContent {
  import opened CborCodec
  import opened OutputStream
  import opened Wrappers

  datatype Atom = ByteAtom(b: byte) | TextAtom(c: byte) | ValueAtom(v: Cbor)

  function ByteAtoms(bs: seq<byte>): seq<Atom> {
    seq(|bs|, i requires 0 <= i < |bs| => ByteAtom(bs[i]))
  }

  function TextAtoms(bs: seq<byte>): seq<Atom> {
    seq(|bs|, i requires 0 <= i < |bs| => TextAtom(bs[i]))
  }

  function AtomsOf(v: Cbor): seq<Atom> {
    match v
    case Bytes(b) => ByteAtoms(b)
    case Text(b) => TextAtoms(b)
    case _ => [ValueAtom(v)]
  }

  function BodyAtoms(body: Body): seq<Atom> {
    match body
    case Whole(v) => AtomsOf(v)
    case Fragment(_, _) => []
  }

  function AllAtoms(bodies: seq<Body>): seq<Atom> {
    if bodies == [] then [] else BodyAtoms(bodies[0]) + AllAtoms(bodies[1..])
  }

  function Bodies(wire: seq<StreamFrame>): seq<Body> {
    if wire == [] then []
    else
      var last := wire[|wire| - 1];
      Bodies(wire[..|wire| - 1]) + if last.Chunk? then [last.body] else []
  }

  /** What a reader of the chunks so far has read. */
  function Content(wire: seq<StreamFrame>): seq<Atom> {
    AllAtoms(Bodies(wire))
  }

  // ---- A batch of chunks in one step ----------------------------------------------

  function ChunksFrom(n: nat, bodies: seq<Body>): seq<StreamFrame> {
    seq(|bodies|, i requires 0 <= i < |bodies| => Chunk(n + i, bodies[i]))
  }

  /**
    How many of n frames of a stream the channel takes, handed over from place `at`
    on: up to the end of the credit or the first that is refused.
  */
  function Reach(credit: Option<nat>, at: nat, refused: set<nat>, n: nat): (k: nat)
    ensures k <= n && (credit.Some? ==> k <= credit.value)
    ensures forall i :: at <= i < at + k ==> i !in refused
    ensures k == n || credit == Some(k) || at + k in refused
  {
    if n == 0 then 0
    else
      var k := Reach(credit, at, refused, n - 1);
      if k < n - 1 || credit == Some(k) || at + k in refused then k else n
  }

  function Taken(o: Out, n: nat): (k: nat)
    ensures k <= n
  {
    Reach(o.credit, |o.handed|, o.refused, n)
  }

  /** How many are handed over: the one refused as well. */
  function Tried(o: Out, n: nat): (h: nat)
    ensures Taken(o, n) <= h <= n && (o.credit.Some? ==> h <= o.credit.value)
  {
    var k := Taken(o, n);
    if k < n && o.credit != Some(k) then k + 1 else k
  }

  function Stop(o: Out, n: nat): Option<Failure> {
    var k := Taken(o, n);
    if k == n then None else if o.credit == Some(k) then Some(GateClosed) else Some(Refused)
  }

  function Spend(credit: Option<nat>, k: nat): Option<nat>
    requires credit.Some? ==> k <= credit.value
  {
    match credit
    case None => None
    case Some(c) => Some(c - k)
  }

  /** What sending the bodies one after the other leaves. */
  function AfterSending(o: Out, bodies: seq<Body>): Out {
    var k, h := Taken(o, |bodies|), Tried(o, |bodies|);
    o.(credit := Spend(o.credit, h), sent := o.sent + h,
       handed := o.handed + ChunksFrom(o.sent, bodies[..h]), wire := o.wire + ChunksFrom(o.sent, bodies[..k]))
  }

  /**
    The loop's effect in closed form: a prefix of the bodies, numbered on from the
    last, and all of them unless the gate closed or the channel refused one; that
    one has its number too.
  */
  lemma {:induction false} EmitsIsPrefix(o: Out, bodies: seq<Body>)
    ensures Emits(o, bodies) == Step(AfterSending(o, bodies), Stop(o, |bodies|))
    decreases |bodies|
  {
    if bodies == [] || o.credit == Some(0) {
      assert o.wire + [] == o.wire && o.handed + [] == o.handed;
      assert ChunksFrom(o.sent, []) == [];
    } else if |o.handed| in o.refused {
      assert o.wire + [] == o.wire;
      assert ChunksFrom(o.sent, []) == [];
      assert bodies[..1] == [bodies[0]];
      assert ChunksFrom(o.sent, [bodies[0]]) == [Chunk(o.sent, bodies[0])];
    } else {
      EmitsIsPrefix(Emit(o, bodies[0]).out, bodies[1..]);
      SendOneThenRest(o, bodies[0], bodies[1..]);
      assert [bodies[0]] + bodies[1..] == bodies;
    }
  }

  /** The reach is the only such number. */
  lemma ReachIs(credit: Option<nat>, at: nat, refused: set<nat>, n: nat, k: nat)
    requires k <= n && (credit.Some? ==> k <= credit.value) && forall i :: at <= i < at + k ==> i !in refused
    requires k == n || credit == Some(k) || at + k in refused
    ensures Reach(credit, at, refused, n) == k
  {
  }

  lemma OneFurther(o: Out, body: Body, n: nat)
    requires o.credit != Some(0) && |o.handed| !in o.refused
    ensures var first := Emit(o, body).out;
            Taken(o, n + 1) == Taken(first, n) + 1 && Tried(o, n + 1) == Tried(first, n) + 1
            && Stop(first, n) == Stop(o, n + 1)
  {
    var first := Emit(o, body).out;
    var k := Taken(first, n);
    hide Reach;
    assert |first.handed| == |o.handed| + 1;
    assert forall i :: |o.handed| <= i < |o.handed| + (k + 1) ==> i !in o.refused;
    ReachIs(o.credit, |o.handed|, o.refused, n + 1, k + 1);
  }

  lemma SendOneThenRest(o: Out, body: Body, rest: seq<Body>)
    requires o.credit != Some(0) && |o.handed| !in o.refused
    ensures var first := Emit(o, body).out;
            AfterSending(first, rest) == AfterSending(o, [body] + rest) && Stop(first, |rest|) == Stop(o, |rest| + 1)
  {
    hide ChunksFrom, Reach;
    OneFurther(o, body, |rest|);
    var first := Emit(o, body).out;
    OneThenMore(o.wire, o.sent, body, rest, Taken(first, |rest|));
    OneThenMore(o.handed, o.sent, body, rest, Tried(first, |rest|));
    hide Taken, Tried;
  }

  lemma OneThenMore(wire: seq<StreamFrame>, n: nat, body: Body, rest: seq<Body>, k: nat)
    requires k <= |rest|
    ensures wire + [Chunk(n, body)] + ChunksFrom(n + 1, rest[..k]) == wire + ChunksFrom(n, ([body] + rest)[..k + 1])
  {
    assert ([body] + rest)[..k + 1] == [body] + rest[..k];
    assert wire + [Chunk(n, body)] + ChunksFrom(n + 1, rest[..k])
        == wire + ([Chunk(n, body)] + ChunksFrom(n + 1, rest[..k]));
  }

  lemma {:induction false} BodiesAppend(wire: seq<StreamFrame>, n: nat, bodies: seq<Body>)
    ensures Bodies(wire + ChunksFrom(n, bodies)) == Bodies(wire) + bodies
    decreases |bodies|
  {
    if bodies == [] {
      assert wire + ChunksFrom(n, []) == wire;
    } else {
      var init := bodies[..|bodies| - 1];
      BodiesAppend(wire, n, init);
      var all := wire + ChunksFrom(n, bodies);
      assert all[..|all| - 1] == wire + ChunksFrom(n, init);
      assert bodies == init + [bodies[|bodies| - 1]];
    }
  }

  lemma {:induction false} AtomsAppend(a: seq<Body>, b: seq<Body>)
    ensures AllAtoms(a + b) == AllAtoms(a) + AllAtoms(b)
  {
    if a == [] {
      assert a + b == b;
    } else {
      assert (a + b)[1..] == a[1..] + b;
      AtomsAppend(a[1..], b);
    }
  }

  lemma ContentAfterSending(o: Out, bodies: seq<Body>)
    ensures Content(AfterSending(o, bodies).wire)
         == Content(o.wire) + AllAtoms(bodies[..Taken(o, |bodies|)])
  {
    var sent := bodies[..Taken(o, |bodies|)];
    BodiesAppend(o.wire, o.sent, sent);
    AtomsAppend(Bodies(o.wire), sent);
  }

  // ---- Cutting loses nothing -----------------------------------------------------

  lemma ByteAtomsAppend(a: seq<byte>, b: seq<byte>)
    ensures ByteAtoms(a + b) == ByteAtoms(a) + ByteAtoms(b)
  {
  }

  lemma TextAtomsAppend(a: seq<byte>, b: seq<byte>)
    ensures TextAtoms(a + b) == TextAtoms(a) + TextAtoms(b)
  {
  }

  lemma {:induction false} SplitKeepsBytes(data: seq<byte>, maxChunk: nat)
    requires maxChunk > 0
    ensures AllAtoms(ByteBodies(Split(data, maxChunk))) == ByteAtoms(data)
    decreases |data|
  {
    if data != [] {
      var n := Min(|data|, maxChunk);
      SplitKeepsBytes(data[n..], maxChunk);
      BytesThenRest(data[..n], Split(data[n..], maxChunk));
      assert data == data[..n] + data[n..];
      ByteAtomsAppend(data[..n], data[n..]);
    }
  }

  lemma BytesThenRest(piece: seq<byte>, rest: seq<seq<byte>>)
    ensures AllAtoms(ByteBodies([piece] + rest)) == ByteAtoms(piece) + AllAtoms(ByteBodies(rest))
  {
    assert ByteBodies([piece] + rest) == [Whole(Bytes(piece))] + ByteBodies(rest);
    assert ([Whole(Bytes(piece))] + ByteBodies(rest))[1..] == ByteBodies(rest);
  }

  predicate PiecesFit(pieces: seq<seq<byte>>, maxChunk: nat) {
    forall i :: 0 <= i < |pieces| ==> 1 <= |pieces[i]| <= maxChunk
  }

  lemma {:induction false} SplitFits(data: seq<byte>, maxChunk: nat)
    requires maxChunk > 0
    ensures PiecesFit(Split(data, maxChunk), maxChunk)
    decreases |data|
  {
    if data != [] {
      SplitFits(data[Min(|data|, maxChunk)..], maxChunk);
    }
  }

  // ---- Cutting text ------------------------------------------------------------------

  lemma {:induction false} LongestIsText(bs: seq<byte>, n: nat)
    requires n <= |bs|
    ensures IsUtf8(bs[..LongestText(bs, n)])
    ensures forall j :: LongestText(bs, n) < j <= n ==> !IsUtf8(bs[..j])
  {
    if n > 0 && !IsUtf8(bs[..n]) {
      LongestIsText(bs, n - 1);
    }
  }

  /** Every character fits a chunk on its own. */
  predicate AllFit(bs: seq<byte>, maxChunk: nat)
    requires IsUtf8(bs)
  {
    bs == [] || (Width(bs[0]) <= maxChunk && AllFit(bs[Width(bs[0])..], maxChunk))
  }

  /** Whole characters dropped from the front leave whole characters. */
  lemma {:induction false} DropText(bs: seq<byte>, k: nat, maxChunk: nat)
    requires IsUtf8(bs) && k <= |bs| && k <= maxChunk && IsUtf8(bs[..k])
    ensures IsUtf8(bs[k..]) && (AllFit(bs, maxChunk) <==> AllFit(bs[k..], maxChunk))
    decreases |bs|
  {
    if k > 0 {
      var w := Width(bs[0]);
      assert bs[..k][0] == bs[0];
      assert bs[..k][w..] == bs[w..][..k - w];
      DropText(bs[w..], k - w, maxChunk);
      assert bs[w..][k - w..] == bs[k..];
    }
  }

  lemma FirstCharacter(bs: seq<byte>)
    requires IsUtf8(bs) && bs != []
    ensures 0 < Width(bs[0]) <= |bs| && IsUtf8(bs[..Width(bs[0])])
  {
    var w := Width(bs[0]);
    assert bs[..w][1..w] == bs[1..w];
    assert bs[..w][w..] == [];
  }

  /** There is a first piece exactly when the first character fits. */
  lemma FirstPiece(bs: seq<byte>, maxChunk: nat)
    requires IsUtf8(bs) && bs != []
    ensures var k := LongestText(bs, Min(|bs|, maxChunk));
            IsUtf8(bs[..k]) && (k == 0 <==> Width(bs[0]) > maxChunk)
  {
    var n := Min(|bs|, maxChunk);
    LongestIsText(bs, n);
    FirstCharacter(bs);
    var k := LongestText(bs, n);
    if k > 0 {
      assert bs[..k][0] == bs[0];
    }
  }

  predicate TextPieces(pieces: seq<seq<byte>>, maxChunk: nat) {
    forall i :: 0 <= i < |pieces| ==> 1 <= |pieces[i]| <= maxChunk && IsUtf8(pieces[i])
  }

  /** How far the pieces of a text reach. */
  function Length(pieces: seq<seq<byte>>): nat {
    if pieces == [] then 0 else |pieces[0]| + Length(pieces[1..])
  }

  /**
    A text goes out whole exactly when each of its characters fits a chunk; the
    pieces never cut a character, and in order they are the text, or the part of
    it before the character that does not fit.
  */
  predicate FaithfulSplit(bs: seq<byte>, s: TextSplit, maxChunk: nat)
    requires IsUtf8(bs)
  {
    (s.whole <==> AllFit(bs, maxChunk)) && TextPieces(s.pieces, maxChunk)
    && Length(s.pieces) <= |bs| && AllAtoms(TextBodies(s.pieces)) == TextAtoms(bs[..Length(s.pieces)])
    && (s.whole ==> Length(s.pieces) == |bs|)
  }

  lemma {:induction false} SplitTextIsFaithful(bs: seq<byte>, maxChunk: nat)
    requires IsUtf8(bs)
    ensures FaithfulSplit(bs, SplitText(bs, maxChunk), maxChunk)
    decreases |bs|
  {
    if bs != [] {
      var k := LongestText(bs, Min(|bs|, maxChunk));
      FirstPiece(bs, maxChunk);
      if k > 0 {
        DropText(bs, k, maxChunk);
        var rest := SplitText(bs[k..], maxChunk);
        SplitTextIsFaithful(bs[k..], maxChunk);
        PieceThenRest(bs, k, rest, maxChunk);
        assert SplitText(bs, maxChunk) == TextSplit([bs[..k]] + rest.pieces, rest.whole);
      }
    }
  }

  lemma PieceThenRest(bs: seq<byte>, k: nat, rest: TextSplit, maxChunk: nat)
    requires 1 <= k <= |bs| && k <= maxChunk && IsUtf8(bs) && IsUtf8(bs[..k]) && IsUtf8(bs[k..])
    requires FaithfulSplit(bs[k..], rest, maxChunk) && (AllFit(bs, maxChunk) <==> AllFit(bs[k..], maxChunk))
    ensures FaithfulSplit(bs, TextSplit([bs[..k]] + rest.pieces, rest.whole), maxChunk)
  {
    hide IsUtf8, AllFit;
    var n := Length(rest.pieces);
    LengthCons(bs[..k], rest.pieces);
    PieceAtoms(bs, k, n, rest.pieces);
  }

  lemma PieceAtoms(bs: seq<byte>, k: nat, n: nat, rest: seq<seq<byte>>)
    requires k + n <= |bs| && AllAtoms(TextBodies(rest)) == TextAtoms(bs[k..][..n])
    ensures AllAtoms(TextBodies([bs[..k]] + rest)) == TextAtoms(bs[..k + n])
  {
    AtomsOfPieces(bs[..k], rest);
    TextAtomsAppend(bs[..k], bs[k..][..n]);
    assert bs[..k + n] == bs[..k] + bs[k..][..n];
  }

  lemma LengthCons(piece: seq<byte>, rest: seq<seq<byte>>)
    ensures Length([piece] + rest) == |piece| + Length(rest)
  {
    assert ([piece] + rest)[1..] == rest;
  }

  lemma AtomsOfPieces(piece: seq<byte>, rest: seq<seq<byte>>)
    ensures AllAtoms(TextBodies([piece] + rest)) == TextAtoms(piece) + AllAtoms(TextBodies(rest))
  {
    TextBodiesCons(piece, rest);
    assert ([Whole(Text(piece))] + TextBodies(rest))[1..] == TextBodies(rest);
  }
}
