/**
  Texts as characters: the encoding of RFC 3629, and where a text may be cut.
*/
module Characters {
  import opened CborCodec
  import opened OutputStream
  import opened StreamContent
  import opened Wrappers

  type Character = c: int | 0 <= c < 0x11_0000

  /** The bytes of one character (section 3 of RFC 3629). */
  function Utf8(c: Character): (bs: seq<byte>)
    ensures 1 <= |bs| <= 4
  {
    if c < 0x80 then [c]
    else if c < 0x800 then [0xC0 + c / 64, 0x80 + c % 64]
    else if c < 0x1_0000 then [0xE0 + c / 4096, 0x80 + c / 64 % 64, 0x80 + c % 64]
    else [0xF0 + c / 262144, 0x80 + c / 4096 % 64, 0x80 + c / 64 % 64, 0x80 + c % 64]
  }

  function TextOf(cs: seq<Character>): seq<byte> {
    if cs == [] then [] else Utf8(cs[0]) + TextOf(cs[1..])
  }

  /** A lead byte says how many bytes its character has, and the others say that they follow one. */
  lemma LeadTells(c: Character)
    ensures Width(Utf8(c)[0]) == |Utf8(c)| && Continues(Utf8(c)[1..])
  {
  }

  /** The bytes up to n are whole characters. */
  ghost predicate Boundary(cs: seq<Character>, n: nat) {
    exists j :: 0 <= j <= |cs| && n == |TextOf(cs[..j])|
  }

  lemma BoundaryCons(cs: seq<Character>, n: nat)
    requires cs != []
    ensures Boundary(cs, n) <==> n == 0 || (n >= |Utf8(cs[0])| && Boundary(cs[1..], n - |Utf8(cs[0])|))
  {
    hide Utf8;
    assert TextOf(cs[..0]) == [];
    forall j | 0 < j <= |cs|
      ensures |TextOf(cs[..j])| == |Utf8(cs[0])| + |TextOf(cs[1..][..j - 1])|
    {
      assert cs[..j][1..] == cs[1..][..j - 1];
    }
    if n >= |Utf8(cs[0])| && Boundary(cs[1..], n - |Utf8(cs[0])|) {
      var j :| 0 <= j <= |cs| - 1 && n - |Utf8(cs[0])| == |TextOf(cs[1..][..j])|;
      assert n == |TextOf(cs[..j + 1])|;
    }
    if Boundary(cs, n) && n > 0 {
      var j :| 0 <= j <= |cs| && n == |TextOf(cs[..j])|;
      assert 0 <= j - 1 <= |cs[1..]| && n - |Utf8(cs[0])| == |TextOf(cs[1..][..j - 1])|;
    }
  }

  /** Of a text of whole characters, the first n bytes are such a text exactly when they cut no character. */
  lemma {:induction false} SliceIsTextIff(cs: seq<Character>, n: nat)
    requires n <= |TextOf(cs)|
    ensures IsUtf8(TextOf(cs)[..n]) <==> Boundary(cs, n)
    decreases |cs|
  {
    hide Utf8, Width, Continues, Boundary;
    var text := TextOf(cs);
    if cs == [] {
      assert Boundary(cs, 0) by {
        NothingIsBoundary();
      }
    } else {
      var first, rest := Utf8(cs[0]), TextOf(cs[1..]);
      BoundaryCons(cs, n);
      LeadTells(cs[0]);
      if 0 < n {
        assert text[..n][0] == first[0];
        if n >= |first| {
          assert text[..n][1..|first|] == first[1..];
          assert text[..n][|first|..] == rest[..n - |first|];
          SliceIsTextIff(cs[1..], n - |first|);
        }
      }
    }
  }

  lemma NothingIsBoundary()
    ensures Boundary([], 0)
  {
    assert TextOf([][..0]) == [];
  }

  lemma WholeIsBoundary(cs: seq<Character>)
    ensures Boundary(cs, |TextOf(cs)|) && IsUtf8(TextOf(cs))
  {
    assert cs[..|cs|] == cs;
    SliceIsTextIff(cs, |TextOf(cs)|);
    assert TextOf(cs)[..|TextOf(cs)|] == TextOf(cs);
  }

  /** A chunk takes as many whole characters as it has room for. */
  lemma ChunkTakesMost(cs: seq<Character>, n: nat)
    requires n <= |TextOf(cs)|
    ensures Boundary(cs, LongestText(TextOf(cs), n))
    ensures forall m :: LongestText(TextOf(cs), n) < m <= n ==> !Boundary(cs, m)
  {
    LongestIsText(TextOf(cs), n);
    forall m | 0 <= m <= n
      ensures IsUtf8(TextOf(cs)[..m]) <==> Boundary(cs, m)
    {
      SliceIsTextIff(cs, m);
    }
    hide TextOf, Boundary, IsUtf8;
  }

  /** A text goes out whole exactly when every character of it fits a chunk on its own. */
  lemma GoesOutWholeIff(cs: seq<Character>, maxChunk: nat)
    ensures SplitText(TextOf(cs), maxChunk).whole <==> forall c :: c in cs ==> |Utf8(c)| <= maxChunk
  {
    WholeIsBoundary(cs);
    SplitTextIsFaithful(TextOf(cs), maxChunk);
    hide SplitText;
    EachFitsIff(cs, maxChunk);
  }

  lemma {:induction false} EachFitsIff(cs: seq<Character>, maxChunk: nat)
    requires IsUtf8(TextOf(cs))
    ensures AllFit(TextOf(cs), maxChunk) <==> forall c :: c in cs ==> |Utf8(c)| <= maxChunk
    decreases |cs|
  {
    hide Utf8, Width, Continues, IsUtf8;
    if cs != [] {
      LeadTells(cs[0]);
      WholeIsBoundary(cs[1..]);
      assert TextOf(cs)[|Utf8(cs[0])|..] == TextOf(cs[1..]);
      EachFitsIff(cs[1..], maxChunk);
      assert cs == [cs[0]] + cs[1..];
    }
  }
}
