/** What the canonical code of section 3.2.2 of RFC 1951 is, told without counting: codes stand in order of
    length and symbol, without a gap, each with its share of the 2^15 windows of fifteen bits. */
module CodeSpace {
  import opened Words
  import opened Canonical
  import opened Huffman

  /** The windows of fifteen bits that begin with a code of l bits. */
  function Share(l: nat): nat {
    if 1 <= l <= 15 then Pow2(15 - l) else 0
  }

  /** The share of those of the first n symbols whose code is shorter than l, or as short and their number
      below s. */
  function SpaceBefore(lengths: seq<nat>, l: nat, s: nat, n: nat): nat
    requires n <= |lengths|
  {
    if n == 0 then 0
    else SpaceBefore(lengths, l, s, n - 1)
         + (if lengths[n - 1] < l || (lengths[n - 1] == l && n - 1 < s) then Share(lengths[n - 1]) else 0)
  }

  /** The share of all codes. */
  function Space(lengths: seq<nat>): nat {
    SpaceBefore(lengths, 16, 0, |lengths|)
  }

  // Sums over symbols and over lengths

  lemma {:induction false} SpaceNext(lengths: seq<nat>, l: nat, s: nat, n: nat)
    requires n <= |lengths| && s < |lengths|
    ensures SpaceBefore(lengths, l, s + 1, n)
         == SpaceBefore(lengths, l, s, n) + (if s < n && lengths[s] == l then Share(l) else 0)
  {
    if n > 0 { SpaceNext(lengths, l, s, n - 1); }
  }

  lemma {:induction false} SpaceLonger(lengths: seq<nat>, l: nat, n: nat)
    requires n <= |lengths|
    ensures SpaceBefore(lengths, l + 1, 0, n) == SpaceBefore(lengths, l, |lengths|, n)
  {
    if n > 0 { SpaceLonger(lengths, l, n - 1); }
  }

  lemma {:induction false} SpaceRank(lengths: seq<nat>, l: nat, s: nat)
    requires 1 <= l <= 15 && s <= |lengths|
    ensures SpaceBefore(lengths, l, s, |lengths|)
         == SpaceBefore(lengths, l, 0, |lengths|) + Shl(CountTo(lengths, l, s), 15 - l)
  {
    if s == 0 {
      ShlOne(15 - l);
    } else {
      SpaceRank(lengths, l, s - 1);
      SpaceNext(lengths, l, s - 1, |lengths|);
      ShlAdd(CountTo(lengths, l, s - 1), 1, 15 - l);
      ShlOne(15 - l);
    }
  }

  /** Nothing is shorter than one bit. */
  lemma {:induction false} SpaceNone(lengths: seq<nat>, n: nat)
    requires n <= |lengths|
    ensures SpaceBefore(lengths, 1, 0, n) == 0
  {
    if n > 0 { SpaceNone(lengths, n - 1); }
  }

  lemma {:induction false} SpaceIsKraft(lengths: seq<nat>, l: nat)
    requires l <= 15
    ensures SpaceBefore(lengths, l + 1, 0, |lengths|) == Kraft(lengths, l, 15)
  {
    if l == 0 {
      SpaceNone(lengths, |lengths|);
    } else {
      SpaceIsKraft(lengths, l - 1);
      SpaceLonger(lengths, l, |lengths|);
      SpaceRank(lengths, l, |lengths|);
    }
  }

  /** Left-justified in fifteen bits, a symbol's code is the share of all codes before it. */
  lemma CodeIsSpaceBefore(lengths: seq<nat>, s: nat)
    requires s < |lengths| && 1 <= lengths[s] <= 15
    ensures Shl(Code(lengths, s), 15 - lengths[s]) == SpaceBefore(lengths, lengths[s], s, |lengths|)
  {
    var l := lengths[s];
    SpaceIsKraft(lengths, l - 1);
    KraftIsNextCode(lengths, l - 1, 15);
    var a := First(lengths, l - 1) + Count(lengths, l - 1);
    ShlDouble(a, 15 - l);
    ShlAdd(a, a, 15 - l);
    SpaceRank(lengths, l, s);
    ShlAdd(First(lengths, l), CountTo(lengths, l, s), 15 - l);
  }

  /** A code fits when its shares do. */
  lemma FitsIsSpace(lengths: seq<nat>)
    ensures Fits(lengths) <==> Space(lengths) <= 32768
  {
    SpaceIsKraft(lengths, 15);
    KraftDecides(lengths, 15);
    assert Pow2(10) == 1024 && Pow2(15) == 32768;
  }

  // Which windows are decoded

  /** The windows below the end of the last code are decoded, and no others. */
  lemma DecodedBelow(lengths: seq<nat>, w: nat)
    requires ShortLengths(lengths)
    ensures Sym(lengths, w) >= 0 <==> Msb(w, 15) < Kraft(lengths, 15, 15)
  {
    var s := Sym(lengths, w);
    if s >= 0 {
      var l := lengths[s];
      RankBelow(lengths, s);
      MsbPrefix(w, l, 15);
      ShlMono(Msb(w, l) + 1, First(lengths, l) + Count(lengths, l), 15 - l);
      KraftIsNextCode(lengths, l, 15);
      KraftMono(lengths, l, 15, 15);
    }
    if Msb(w, 15) < Kraft(lengths, 15, 15) {
      var sym := Decoded(lengths, w, 15);
      SymIs(lengths, sym, w);
    }
  }

  lemma {:induction false} Decoded(lengths: seq<nat>, w: nat, l: nat) returns (sym: nat)
    requires l <= 15 && Msb(w, 15) < Kraft(lengths, l, 15)
    ensures sym < |lengths| && Matches(lengths, sym, w)
  {
    if Msb(w, 15) < Kraft(lengths, l - 1, 15) {
      sym := Decoded(lengths, w, l - 1);
    } else {
      var f, c := First(lengths, l), Count(lengths, l);
      KraftIsNextCode(lengths, l, 15);
      KraftIsNextCode(lengths, l - 1, 15);
      NextFirst(lengths, l);
      MsbPrefix(w, l, 15);
      if Msb(w, l) < f { ShlMono(Msb(w, l) + 1, f, 15 - l); }
      if Msb(w, l) >= f + c { ShlMono(f + c, Msb(w, l), 15 - l); }
      sym := RankSurjective(lengths, l, Msb(w, l) - f, |lengths|);
    }
  }

  lemma NextFirst(lengths: seq<nat>, l: nat)
    requires 1 <= l <= 15
    ensures Shl(First(lengths, l), 15 - l) == Shl(First(lengths, l - 1) + Count(lengths, l - 1), 15 - (l - 1))
  {
    var a := First(lengths, l - 1) + Count(lengths, l - 1);
    ShlDouble(a, 15 - l);
    ShlAdd(a, a, 15 - l);
  }

  /** A code is complete when it decodes every window. */
  lemma CompleteDecodesAll(lengths: seq<nat>)
    requires ShortLengths(lengths) && Fits(lengths)
    ensures Kraft(lengths, 15, 15) == 32768 <==> forall w: nat | w < 32768 :: Sym(lengths, w) >= 0
  {
    hide Sym, Kraft;
    assert Pow2(10) == 1024 && Pow2(15) == 32768;
    KraftDecides(lengths, 15);
    var k := Kraft(lengths, 15, 15);
    if k == 32768 {
      forall w: nat | w < 32768 ensures Sym(lengths, w) >= 0 {
        DecodedBelow(lengths, w);
        MsbBound(w, 15);
      }
    } else {
      var w := Reverse(k, 15);
      ReverseBound(k, 15);
      LowSmall(w, 15);
      MsbVersusLow(w, k, 15);
      DecodedBelow(lengths, w);
    }
  }

  // The strict builder

  /** No two symbols have a code. */
  ghost predicate AtMostOne(lengths: seq<nat>) {
    forall a, b | 0 <= a < b < |lengths| :: lengths[a] == 0 || lengths[b] == 0
  }

  /** How many of the first n symbols have a code. */
  function Coded(lengths: seq<nat>, n: nat): nat
    requires n <= |lengths|
  {
    if n == 0 then 0 else Coded(lengths, n - 1) + (if lengths[n - 1] > 0 then 1 else 0)
  }

  /** Those with a code of at most l bits. */
  function CodedUpTo(lengths: seq<nat>, l: nat, n: nat): nat
    requires n <= |lengths|
  {
    if l == 0 then 0 else CodedUpTo(lengths, l - 1, n) + CountTo(lengths, l, n)
  }

  lemma {:induction false} UpToNext(lengths: seq<nat>, l: nat, n: nat)
    requires 0 < n <= |lengths|
    ensures CodedUpTo(lengths, l, n)
         == CodedUpTo(lengths, l, n - 1) + (if 1 <= lengths[n - 1] <= l then 1 else 0)
  {
    if l > 0 { UpToNext(lengths, l - 1, n); }
  }

  lemma {:induction false} UpToNone(lengths: seq<nat>, l: nat)
    ensures CodedUpTo(lengths, l, 0) == 0
  {
    if l > 0 { UpToNone(lengths, l - 1); }
  }

  lemma {:induction false} CodedIsUpTo(lengths: seq<nat>, n: nat)
    requires n <= |lengths| && ShortLengths(lengths)
    ensures Coded(lengths, n) == CodedUpTo(lengths, 15, n)
  {
    if n == 0 {
      UpToNone(lengths, 15);
    } else {
      CodedIsUpTo(lengths, n - 1);
      UpToNext(lengths, 15, n);
    }
  }

  lemma {:induction false} OffsetIsUpTo(lengths: seq<nat>, l: nat)
    ensures Offset(lengths, l + 1) == CodedUpTo(lengths, l, |lengths|)
  {
    if l > 0 { OffsetIsUpTo(lengths, l - 1); }
  }

  lemma {:induction false} CodedSome(lengths: seq<nat>, n: nat) returns (a: nat)
    requires n <= |lengths| && Coded(lengths, n) > 0
    ensures a < n && lengths[a] > 0 && Coded(lengths, a) + 1 == Coded(lengths, n)
  {
    if lengths[n - 1] > 0 { a := n - 1; } else { a := CodedSome(lengths, n - 1); }
  }

  lemma {:induction false} CodedMore(lengths: seq<nat>, a: nat, n: nat)
    requires a < n <= |lengths| && lengths[a] > 0
    ensures Coded(lengths, n) >= Coded(lengths, a) + 1
  {
    if a + 1 < n { CodedMore(lengths, a, n - 1); }
  }

  lemma FewCoded(lengths: seq<nat>)
    requires ShortLengths(lengths)
    ensures Offset(lengths, 16) <= 1 <==> AtMostOne(lengths)
  {
    OffsetIsUpTo(lengths, 15);
    CodedIsUpTo(lengths, |lengths|);
    if Offset(lengths, 16) >= 2 {
      var b := CodedSome(lengths, |lengths|);
      var a := CodedSome(lengths, b);
    }
    forall a, b | 0 <= a < b < |lengths| && lengths[a] > 0 && lengths[b] > 0 ensures Offset(lengths, 16) >= 2 {
      CodedMore(lengths, b, |lengths|);
      CodedMore(lengths, a, b);
    }
  }

  /** What the strict builder accepts: lengths up to fifteen, codes that fit, and, when more than one symbol
      has a code, a code that decodes every window. */
  lemma StrictAccepts(lengths: seq<nat>)
    ensures Accepts(lengths, true) <==>
      && (forall i | 0 <= i < |lengths| :: lengths[i] <= 15) && Space(lengths) <= 32768
      && (AtMostOne(lengths) || forall w: nat | w < 32768 :: Sym(lengths, w) >= 0)
  {
    hide Sym, Kraft, Space, Offset, Fits;
    FitsIsSpace(lengths);
    if ShortLengths(lengths) && Fits(lengths) {
      FewCoded(lengths);
      CompleteDecodesAll(lengths);
      assert Pow2(10) == 1024 && Pow2(15) == 32768;
    }
  }

  /** And the tolerant one. */
  lemma TolerantAccepts(lengths: seq<nat>)
    ensures Accepts(lengths, false) <==>
      (forall i | 0 <= i < |lengths| :: lengths[i] <= 15) && Space(lengths) <= 32768
  {
    FitsIsSpace(lengths);
  }
}
