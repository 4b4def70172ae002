/** A block start that the finder would verify and yet does not find: it lies eleven bits into a full jump
    (deflate/block_finder.rs). */
module MissedStart {
  import opened Words
  import opened BitStream
  import opened Canonical
  import opened Tables
  import opened Huffman
  import opened Lz77
  import opened Deflate
  import opened BlockFinder
  import CrossMember
  import opened Written

  /** Eleven zero bits, then a dynamic block that holds nothing but its end, then zeros. */
  const DATA: seq<u8> := [0, 0x20, 0, 0x0e, 0x44, 0, 0, 0, 0, 0, 0xf9, 0x5b, 0x1f, 0]

  lemma Field(pos: nat, i: nat, n: nat, v: nat)
    requires pos + 3 <= 14 && i + n <= 24
    requires var b0: int, b1: int, b2: int := DATA[pos], DATA[pos + 1], DATA[pos + 2];
      v == b0 + 0x100 * b1 + 0x1_0000 * b2
    ensures Val(DATA, 8 * pos + i, n) == Low(Shr(v, i), n)
  {
    hide Val, Low, Shr;
    CrossMember.ThreeBytes(DATA, pos);
    CrossMember.ValSlice(DATA, 8 * pos, 24, i, n);
  }

  // The header's fields

  lemma Counts()
    ensures Val(DATA, 0, 13) == 0 && Val(DATA, 11, 1) == 0 && Val(DATA, 12, 2) == 2
    ensures Val(DATA, 14, 5) == 0 && Val(DATA, 19, 5) == 0 && Val(DATA, 24, 4) == 14
  {
    hide Val, Low, Shr;
    Field(0, 0, 13, 0x2000);
    Field(1, 3, 1, 0xe0020);
    Field(1, 4, 2, 0xe0020);
    Field(1, 6, 5, 0xe0020);
    Field(2, 3, 5, 0x440e00);
    Field(3, 0, 4, 0x440e);
    CountSlices();
  }

  lemma CountSlices()
    ensures Low(Shr(0x2000, 0), 13) == 0 && Low(Shr(0xe0020, 3), 1) == 0 && Low(Shr(0xe0020, 4), 2) == 2
    ensures Low(Shr(0xe0020, 6), 5) == 0 && Low(Shr(0x440e00, 3), 5) == 0 && Low(Shr(0x440e, 0), 4) == 14
  {
    assert Shr(0xe0020, 3) == 0x1c004 && Shr(0xe0020, 4) == 0xe002 && Shr(0xe0020, 6) == 0x3800;
    assert Shr(0x440e00, 3) == 0x881c0;
  }

  /** What the k-th entry of the code-length code says: one bit for symbol 18, two for 0 and for 1. */
  function Expected(k: nat): nat {
    if k == 2 then 1 else if k == 3 || k == 17 then 2 else 0
  }

  lemma CodeFields(k: nat)
    requires k < 18
    ensures Val(DATA, 28 + 3 * k, 3) == Expected(k)
  {
    hide Val, Low, Shr, Expected;
    if k < 4 { EarlyFields(k); } else if k < 12 { MiddleFields(k); } else { LateFields(k); }
  }

  lemma EarlyFields(k: nat)
    requires k < 4
    ensures Val(DATA, 28 + 3 * k, 3) == Expected(k)
  {
    hide Val, Low, Shr;
    Field(3, 4, 3, 0x440e);
    Field(3, 7, 3, 0x440e);
    Field(4, 2, 3, 0x44);
    Field(4, 5, 3, 0x44);
    EarlySlices();
  }

  lemma EarlySlices()
    ensures Low(Shr(0x440e, 4), 3) == 0 && Low(Shr(0x440e, 7), 3) == 0
    ensures Low(Shr(0x44, 2), 3) == 1 && Low(Shr(0x44, 5), 3) == 2
  {
    assert Shr(0x440e, 4) == 0x440 && Shr(0x440e, 7) == 0x88 && Shr(0x44, 2) == 0x11 && Shr(0x44, 5) == 2;
  }

  lemma MiddleFields(k: nat)
    requires 4 <= k < 12
    ensures Val(DATA, 28 + 3 * k, 3) == Expected(k)
  {
    hide Val;
    forall q: nat | 40 <= q < 64 ensures !StreamBit(DATA, q) { BitZero(q % 8); }
    ZerosVal(DATA, 28 + 3 * k, 3);
  }

  lemma LateFields(k: nat)
    requires 12 <= k < 18
    ensures Val(DATA, 28 + 3 * k, 3) == Expected(k)
  {
    hide Val, Low, Shr;
    Field(8, 0, 3, 0xf90000);
    Field(8, 3, 3, 0xf90000);
    Field(8, 6, 3, 0xf90000);
    Field(9, 1, 3, 0x5bf900);
    Field(9, 4, 3, 0x5bf900);
    Field(9, 7, 3, 0x5bf900);
    LateSlices();
  }

  lemma LateSlices()
    ensures Low(Shr(0xf90000, 0), 3) == 0 && Low(Shr(0xf90000, 3), 3) == 0 && Low(Shr(0xf90000, 6), 3) == 0
    ensures Low(Shr(0x5bf900, 1), 3) == 0 && Low(Shr(0x5bf900, 4), 3) == 0 && Low(Shr(0x5bf900, 7), 3) == 2
  {
    assert Shr(0xf90000, 3) == 0x1f2000 && Shr(0xf90000, 6) == 0x3e400;
    assert Shr(0x5bf900, 1) == 0x2dfc80 && Shr(0x5bf900, 4) == 0x5bf90 && Shr(0x5bf900, 7) == 0xb7f2;
  }

  lemma Symbols()
    ensures Val(DATA, 82, 1) == 0 && Val(DATA, 83, 7) == 127 && Val(DATA, 90, 1) == 0 && Val(DATA, 91, 7) == 107
    ensures Val(DATA, 98, 2) == 3 && Val(DATA, 100, 2) == 1 && Val(DATA, 102, 1) == 0
  {
    hide Val, Low, Shr;
    Field(10, 2, 1, 0x1f5bf9);
    Field(10, 3, 7, 0x1f5bf9);
    Field(11, 2, 1, 0x1f5b);
    Field(11, 3, 7, 0x1f5b);
    Field(11, 10, 2, 0x1f5b);
    Field(11, 12, 2, 0x1f5b);
    Field(11, 14, 1, 0x1f5b);
    SymbolSlices();
  }

  lemma SymbolSlices()
    ensures Low(Shr(0x1f5bf9, 2), 1) == 0 && Low(Shr(0x1f5bf9, 3), 7) == 127
    ensures Low(Shr(0x1f5b, 2), 1) == 0 && Low(Shr(0x1f5b, 3), 7) == 107
    ensures Low(Shr(0x1f5b, 10), 2) == 3 && Low(Shr(0x1f5b, 12), 2) == 1 && Low(Shr(0x1f5b, 14), 1) == 0
  {
    assert Shr(0x1f5bf9, 2) == 0x7d6fe && Shr(0x1f5bf9, 3) == 0x3eb7f;
    assert Shr(0x1f5b, 2) == 0x7d6 && Shr(0x1f5b, 3) == 0x3eb;
    assert Shr(0x1f5b, 10) == 7 && Shr(0x1f5b, 12) == 1 && Shr(0x1f5b, 14) == 0;
  }

  // The code-length code

  function CodeCode(): (cl: seq<nat>)
    ensures |cl| == 19 && forall i | 0 <= i < 19 :: cl[i] == if i == 18 then 1 else if i <= 1 then 2 else 0
  {
    seq(19, i => if i == 18 then 1 else if i <= 1 then 2 else 0)
  }

  lemma CodeCodeIs()
    ensures CodeLengthCode(DATA, 28, 18) == CodeCode()
  {
    hide Val, CodeLengthCode;
    forall s | 0 <= s < 19 ensures CodeLengthCode(DATA, 28, 18)[s] == CodeCode()[s] {
      LengthCodeAt(DATA, 28, 18, s);
      PlaceByRule(s);
      if OrderPlace(s) < 18 { CodeFields(OrderPlace(s)); }
      ExpectedOf(s);
    }
  }

  lemma ExpectedOf(s: nat)
    requires s < 19
    ensures (if OrderPlace(s) < 18 then Expected(OrderPlace(s)) else 0) == CodeCode()[s]
  {
  }

  lemma {:induction false} CodeCodeCount(l: nat, n: nat)
    requires l > 0 && n <= 19
    ensures CountTo(CodeCode(), l, n) ==
      if l == 1 then (if n > 18 then 1 else 0) else if l == 2 then (if n >= 2 then 2 else n) else 0
  {
    hide CodeCode;
    if n > 0 { CodeCodeCount(l, n - 1); }
  }

  lemma {:induction false} CodeCodeLeft(l: nat)
    ensures Left(CodeCode(), l) == if l == 0 then 1 else if l == 1 then 1 else 0
  {
    hide CodeCode, CountTo;
    if l > 0 {
      CodeCodeLeft(l - 1);
      CodeCodeCount(l, 19);
    }
  }

  /** A vector whose codes use up all room exactly, or which has but one, is accepted strictly. */
  lemma StrictlyAccepted(lengths: seq<nat>)
    requires ShortLengths(lengths) && forall l: nat | l <= 15 :: Left(lengths, l) >= 0
    requires Left(lengths, 15) == 0 || Offset(lengths, 16) < 2
    ensures Accepts(lengths, true)
  {
    hide Left, Offset, Kraft, First, Count, Pow2, ShortLengths, Shl;
    LeftDecides(lengths);
    LeftIsRoom(lengths, 15);
    KraftIsNextCode(lengths, 15, 15);
    ShlNothing(First(lengths, 15) + Count(lengths, 15));
  }

  lemma ShlNothing(x: nat)
    ensures Shl(x, 0) == x
  {
  }

  lemma CodeCodeAccepted()
    ensures Accepts(CodeCode(), true)
  {
    hide CodeCode, Left;
    forall l: nat | l <= 15 ensures Left(CodeCode(), l) >= 0 { CodeCodeLeft(l); }
    CodeCodeLeft(15);
    StrictlyAccepted(CodeCode());
  }

  lemma {:induction false} CodeCodeFirst(l: nat)
    requires l <= 2
    ensures First(CodeCode(), l) == if l == 2 then 2 else 0
  {
    hide CodeCode, CountTo;
    if l > 0 {
      CodeCodeFirst(l - 1);
      if l > 1 { CodeCodeCount(l - 1, 19); }
    }
  }

  lemma CodeCodes()
    ensures Code(CodeCode(), 18) == 0 && Code(CodeCode(), 0) == 2 && Code(CodeCode(), 1) == 3
  {
    hide CodeCode, CountTo, First;
    CodeCodeFirst(1);
    CodeCodeFirst(2);
    CodeCodeCount(1, 18);
    CodeCodeCount(2, 0);
    CodeCodeCount(2, 1);
  }

  lemma SmallReversals()
    ensures Reverse(0, 1) == 0 && Reverse(2, 2) == 1 && Reverse(3, 2) == 3
    ensures Pow2(1) == 2 && Pow2(2) == 4
  {
    assert Shl(1, 1) == 2 && Shl(1, 0) == 1 && Shl(0, 1) == 0;
  }

  lemma CodeSymbols()
    ensures SymAt(CodeCode(), DATA, 82) == 18 && SymAt(CodeCode(), DATA, 90) == 18
    ensures SymAt(CodeCode(), DATA, 98) == 1 && SymAt(CodeCode(), DATA, 100) == 0
  {
    hide Val, CodeCode, Code, Reverse, Pow2, SymAt;
    Symbols();
    CodeCodes();
    SmallReversals();
    CrossMember.SymByBits(CodeCode(), 18, DATA, 82);
    CrossMember.SymByBits(CodeCode(), 18, DATA, 90);
    CrossMember.SymByBits(CodeCode(), 1, DATA, 98);
    CrossMember.SymByBits(CodeCode(), 0, DATA, 100);
  }

  // The code lengths: 256 zeros, a one for the end of the block, and a zero for the distances

  function LitLengths(): (lengths: seq<nat>)
    ensures |lengths| == 257 && forall i | 0 <= i < 257 :: lengths[i] == if i == 256 then 1 else 0
  {
    Repeat(0, 256) + [1]
  }

  lemma LookupIs(p: nat, s: nat)
    requires p + 10 <= 112 && s < 19 && SymAt(CodeCode(), DATA, p) == s
    ensures LookupAt(CodeCode(), Simple, DATA, p).Ok? && Hi(LookupAt(CodeCode(), Simple, DATA, p).value) == s
  {
    hide CodeCode, SymAt, EncodeEntry, Hi;
    SimpleEntry(s, CodeCode()[s]);
  }

  /** A run of zeros. */
  lemma ZerosStep(p: nat, acc: seq<nat>, total: nat, v: nat)
    requires p + 10 <= 112 && SymAt(CodeCode(), DATA, p) == 18 && Val(DATA, p + 1, 7) == v
    requires |acc| + v + 11 <= total
    ensures LengthsFrom(CodeCode(), DATA, p, acc, total)
         == LengthsFrom(CodeCode(), DATA, p + 8, acc + Repeat(0, v + 11), total)
  {
    hide CodeCode, SymAt, Val, LookupAt, Hi, Repeat;
    LookupIs(p, 18);
  }

  lemma LengthStep(p: nat, acc: seq<nat>, total: nat, s: nat)
    requires p + 10 <= 112 && s <= 1 && SymAt(CodeCode(), DATA, p) == s && |acc| < total
    ensures LengthsFrom(CodeCode(), DATA, p, acc, total) == LengthsFrom(CodeCode(), DATA, p + 2, acc + [s], total)
  {
    hide CodeCode, SymAt, Val, LookupAt, Hi, Repeat;
    LookupIs(p, s);
  }

  lemma LengthsAre()
    ensures LengthsFrom(CodeCode(), DATA, 82, [], 258) == Ok((LitLengths() + [0], 102))
  {
    hide CodeCode, SymAt, Val, LengthsFrom;
    Symbols();
    CodeSymbols();
    ZerosStep(82, [], 258, 127);
    ZerosStep(90, [] + Repeat(0, 138), 258, 107);
    assert [] + Repeat(0, 138) + Repeat(0, 118) == Repeat(0, 256);
    LengthStep(98, Repeat(0, 256), 258, 1);
    LengthStep(100, LitLengths(), 258, 0);
    LengthsEnd(CodeCode(), 102, LitLengths() + [0], 258);
  }

  lemma LengthsEnd(cl: seq<nat>, p: nat, acc: seq<nat>, total: nat)
    requires |acc| == total
    ensures LengthsFrom(cl, DATA, p, acc, total) == Ok((acc, p))
  {
  }

  lemma {:induction false} LitCount(l: nat, n: nat)
    requires l > 0 && n <= 257
    ensures CountTo(LitLengths(), l, n) == if l == 1 && n > 256 then 1 else 0
  {
    hide LitLengths;
    if n > 0 { LitCount(l, n - 1); }
  }

  lemma {:induction false} LitLeft(l: nat)
    ensures Left(LitLengths(), l) >= 1 && Offset(LitLengths(), l) == if l > 1 then 1 else 0
  {
    hide LitLengths, CountTo;
    if l > 0 {
      LitLeft(l - 1);
      LitCount(l, 257);
      if l > 1 { LitCount(l - 1, 257); }
    }
  }

  lemma {:induction false} DistLeft(l: nat)
    ensures Left([0], l) >= 1 && Offset([0], l) == 0
  {
    if l > 0 {
      DistLeft(l - 1);
      NoneCoded(l);
      if l > 1 { NoneCoded(l - 1); }
    }
  }

  lemma NoneCoded(l: nat)
    requires l > 0
    ensures CountTo([0], l, 1) == 0
  {
    assert CountTo([0], l, 0) == 0;
  }

  lemma BothAccepted()
    ensures Accepts(LitLengths(), true) && Accepts([0], true)
  {
    hide LitLengths, Left, Offset;
    forall l: nat | l <= 15 ensures Left(LitLengths(), l) >= 0 && Left([0], l) >= 0 {
      LitLeft(l);
      DistLeft(l);
    }
    LitLeft(16);
    DistLeft(16);
    StrictlyAccepted(LitLengths());
    StrictlyAccepted([0]);
  }

  lemma HeaderIs()
    ensures HeaderAt(DATA, 14, true) == Ok(Header(LitLengths(), [0], 102))
  {
    hide Val, CodeLengthCode, LengthsFrom, Accepts, LitLengths, CodeCode;
    Counts();
    CodeCodeIs();
    CodeCodeAccepted();
    LengthsAre();
    BothAccepted();
    assert (LitLengths() + [0])[..257] == LitLengths() && (LitLengths() + [0])[257..] == [0];
  }

  /** The one symbol is the end of the block. */
  lemma TrialPasses()
    ensures TrialAt(LitLengths(), [0], DATA, 102, TRIAL_SYMBOLS)
  {
    hide Val, LitLengths, SymAt, EncodeEntry, Hi;
    Symbols();
    EndCode();
    CrossMember.SymByBits(LitLengths(), 256, DATA, 102);
    SimpleEntry(256, 1);
  }

  lemma EndCode()
    ensures Code(LitLengths(), 256) == 0 && Reverse(0, 1) == 0 && Pow2(1) == 2
  {
    hide LitLengths, CountTo;
    LitCount(1, 256);
    assert First(LitLengths(), 1) == 2 * (First(LitLengths(), 0) + Count(LitLengths(), 0));
    SmallReversals();
  }

  /** A start that passes the prefilter and is verified stands at bit 11; the finder, asked for the first
      one from bit 0 on, jumps over it, and asked from bit 11 on it finds it. */
  lemma VerifiedStartMissed()
    ensures Candidate(Val(DATA, 11, WINDOW_BITS)) && Verified(DATA, 11)
    ensures JumpedOver(DATA, 0, 11) && FirstFound(DATA, 0, 8 * |DATA|) != Some(11)
    ensures !JumpedOver(DATA, 11, 11) && FirstFound(DATA, 11, 8 * |DATA|) == Some(11)
  {
    hide Val, HeaderAt, TrialAt, LitLengths, Candidate;
    HeaderIs();
    TrialPasses();
    Counts();
    CandidateMeans(DATA, 11);
    ZeroSteps(13);
    assert FirstFound(DATA, 0, 112) == FirstFound(DATA, 13, 112);
    FoundBehind(DATA, 13, 112);
  }

  lemma {:induction false} FoundBehind(data: seq<u8>, pos: nat, limit: nat)
    ensures var r := FirstFound(data, pos, limit); r.Some? ==> r.value >= pos
    decreases limit - pos
  {
    hide Val, Verified;
    if pos + WINDOW_BITS <= limit {
      var step := NextStep(Val(data, pos, WINDOW_BITS), WINDOW_BITS);
      if step > 0 { FoundBehind(data, pos + step, limit); } else { FoundBehind(data, pos + 1, limit); }
    }
  }
}
