/** An input on which the parallel decoder and the serial one differ: two gzip members, the second of which
    copies from the first (pipeline.rs). */
module CrossMember {
  import opened Words
  import opened BitStream
  import opened Canonical
  import opened Tables
  import opened Huffman
  import opened Lz77
  import opened Deflate
  import opened Blocks
  import opened Speculative
  import opened Walk
  import opened Digest
  import opened Workers
  import opened GzipHeader
  import opened Output
  import SafeInflate

  /** After the first member's header: a stored block with the byte 7, a final block with a match of
      length 3 and distance 1, and the trailer; then the second member: its header, a final block with a
      match of length 3 and distance 3, and its trailer. */
  const BODY: seq<u8> := [
    0, 1, 0, 0xfe, 0xff, 7,
    3, 2, 0,
    0x44, 0xf2, 0xf9, 0x68, 4, 0, 0, 0,
    0x1f, 0x8b, 8, 0, 0, 0, 0, 0, 0, 0xff,
    3, 0x22, 0,
    0xf3, 0xcc, 0x2b, 0x2b, 3, 0, 0, 0]

  /** What the trailers say: the CRC-32 of four and of three bytes 7. */
  const CRC_FOUR: nat := 0x68f9f244

  const CRC_THREE: nat := 0x2b2bccf3

  ghost function TwoMembers(): (src: Source)
    ensures Forward(src)
  {
    SourceOf(BODY, HeaderLength)
  }

  // The blocks

  /** A stretch of a stretch of bits. */
  lemma {:induction false} ValSlice(input: seq<u8>, p: nat, m: nat, i: nat, n: nat)
    requires i + n <= m
    ensures Val(input, p + i, n) == Low(Shr(Val(input, p, m), i), n)
    decreases i
  {
    if i == 0 {
      LowVal(input, p, m, n);
    } else {
      ValSlice(input, p + 1, m - 1, i - 1, n);
      assert p + 1 + (i - 1) == p + i;
    }
  }

  lemma ThreeBytes(input: seq<u8>, pos: nat)
    requires pos + 3 <= |input|
    ensures var b0: int, b1: int, b2: int := input[pos], input[pos + 1], input[pos + 2];
      Val(input, 8 * pos, 24) == b0 + 0x100 * b1 + 0x1_0000 * b2
  {
    hide Val, Shl;
    SafeInflate.TwoBytes(input, pos);
    ValByte(input, pos + 2);
    SplitVal(input, 8 * pos, 16, 8);
    assert 8 * pos + 16 == 8 * (pos + 2);
    ShlSixteen(input[pos + 2]);
  }

  lemma ShlSixteen(x: nat)
    ensures Shl(x, 16) == 0x1_0000 * x
  {
    assert Shl(x, 16) == 4 * Shl(x, 14) && Shl(x, 14) == 4 * Shl(x, 12) && Shl(x, 12) == 4 * Shl(x, 10);
    assert Shl(x, 10) == 4 * Shl(x, 8) && Shl(x, 8) == 4 * Shl(x, 6) && Shl(x, 6) == 4 * Shl(x, 4);
    assert Shl(x, 4) == 4 * Shl(x, 2) && Shl(x, 1) == 2 * x && Shl(x, 2) == 2 * Shl(x, 1);
  }

  /** Whether a code starts the window shows in as many bits as it is long. */
  lemma SymByBits(lengths: seq<nat>, s: nat, input: seq<u8>, p: nat)
    requires s < |lengths| && 0 < lengths[s] <= 15 && Code(lengths, s) < Pow2(lengths[s])
    requires Val(input, p, lengths[s]) == Reverse(Code(lengths, s), lengths[s])
    ensures SymAt(lengths, input, p) == s
  {
    hide Val;
    LowVal(input, p, 15, lengths[s]);
    MsbVersusLow(Val(input, p, 15), Code(lengths, s), lengths[s]);
    SymIs(lengths, s, Val(input, p, 15));
  }

  lemma FixedCodes()
    ensures Code(FixedLit(), 256) == 0 && FixedLit()[256] == 7 && Code(FixedLit(), 257) == 1 && FixedLit()[257] == 7
    ensures Code(FixedDist(), 0) == 0 && FixedDist()[0] == 5 && Code(FixedDist(), 2) == 2 && FixedDist()[2] == 5
  {
    FixedFirst(7);
    FixedLitCount(7, 256);
    FixedLitCount(7, 257);
    FixedDistFirst(5);
    FixedDistCount(5, 0);
    FixedDistCount(5, 2);
  }

  lemma Reversals()
    ensures Reverse(0, 7) == 0 && Reverse(1, 7) == 64 && Reverse(0, 5) == 0 && Reverse(2, 5) == 8
  {
    assert Shl(1, 6) == 64 && Shl(1, 3) == 8;
  }

  /** The fields of the two blocks with a match: final, fixed codes, length 3, the distance, the end. */
  lemma MatchFields(input: seq<u8>, pos: nat, far: bool)
    requires pos + 3 <= |input| && input[pos..pos + 3] == [3, if far then 0x22 else 2, 0]
    ensures var p := 8 * pos;
      && Val(input, p, 1) == 1 && Val(input, p + 1, 2) == 1 && Val(input, p + 3, 7) == 64
      && Val(input, p + 10, 5) == (if far then 8 else 0) && Val(input, p + 15, 7) == 0
  {
    hide Val, Low, Shr;
    assert input[pos] == input[pos..pos + 3][0] && input[pos + 1] == input[pos..pos + 3][1];
    assert input[pos + 2] == input[pos..pos + 3][2];
    ThreeBytes(input, pos);
    FieldsOf(input, 8 * pos);
    if far { FarSlices(); } else { NearSlices(); }
  }

  lemma FieldsOf(input: seq<u8>, p: nat)
    ensures var v := Val(input, p, 24);
      && Val(input, p, 1) == Low(Shr(v, 0), 1) && Val(input, p + 1, 2) == Low(Shr(v, 1), 2)
      && Val(input, p + 3, 7) == Low(Shr(v, 3), 7) && Val(input, p + 10, 5) == Low(Shr(v, 10), 5)
      && Val(input, p + 15, 7) == Low(Shr(v, 15), 7)
  {
    hide Val, Low, Shr;
    ValSlice(input, p, 24, 0, 1);
    ValSlice(input, p, 24, 1, 2);
    ValSlice(input, p, 24, 3, 7);
    ValSlice(input, p, 24, 10, 5);
    ValSlice(input, p, 24, 15, 7);
  }

  lemma NearSlices()
    ensures Low(Shr(515, 0), 1) == 1 && Low(Shr(515, 1), 2) == 1 && Low(Shr(515, 3), 7) == 64
    ensures Low(Shr(515, 10), 5) == 0 && Low(Shr(515, 15), 7) == 0
  {
    assert Shr(515, 3) == 64 && Shr(515, 10) == 0 && Shr(515, 15) == 0;
  }

  lemma FarSlices()
    ensures Low(Shr(8707, 0), 1) == 1 && Low(Shr(8707, 1), 2) == 1 && Low(Shr(8707, 3), 7) == 64
    ensures Low(Shr(8707, 10), 5) == 8 && Low(Shr(8707, 15), 7) == 0
  {
    assert Shr(8707, 3) == 1088 && Shr(8707, 10) == 8 && Shr(8707, 15) == 0;
  }

  lemma FixedSymbols(input: seq<u8>, p: nat)
    ensures Val(input, p, 7) == 0 ==> SymAt(FixedLit(), input, p) == 256
    ensures Val(input, p, 7) == 64 ==> SymAt(FixedLit(), input, p) == 257
    ensures Val(input, p, 5) == 0 ==> SymAt(FixedDist(), input, p) == 0
    ensures Val(input, p, 5) == 8 ==> SymAt(FixedDist(), input, p) == 2
  {
    hide Val, Code, FixedLit, FixedDist, Reverse, Pow2;
    FixedSizes();
    FixedCodes();
    Reversals();
    PowersSmall();
    if Val(input, p, 7) == 0 { SymByBits(FixedLit(), 256, input, p); }
    if Val(input, p, 7) == 64 { SymByBits(FixedLit(), 257, input, p); }
    if Val(input, p, 5) == 0 { SymByBits(FixedDist(), 0, input, p); }
    if Val(input, p, 5) == 8 { SymByBits(FixedDist(), 2, input, p); }
  }

  lemma PowersSmall()
    ensures Pow2(7) == 128 && Pow2(5) == 32
  {
  }

  /** A block that is one match. */
  lemma MatchBlock(input: seq<u8>, pos: nat, far: bool)
    requires pos + 3 <= |input| && input[pos..pos + 3] == [3, if far then 0x22 else 2, 0]
    ensures BlockAt(input, 8 * pos) == Block([Copy(3, if far then 3 else 1)], true, 8 * pos + 22)
  {
    hide Val, FixedLit, FixedDist, StepAt;
    MatchFields(input, pos, far);
    MatchSteps(input, 8 * pos, far);
    MatchRun(FixedLit(), FixedDist(), input, 8 * pos + 3, Copy(3, if far then 3 else 1), 8 * pos + 15, 8 * pos + 22);
  }

  lemma MatchRun(lit: seq<nat>, dist: seq<nat>, input: seq<u8>, p: nat, t: Token, q: nat, end: nat)
    requires StepAt(lit, dist, input, p) == Emit(t, q) && StepAt(lit, dist, input, q) == EndOfBlock(end)
    requires p < q < end <= 8 * |input|
    ensures RunFrom(lit, dist, input, p) == Run([t], RunEnd.Done(end))
  {
    hide StepAt;
    assert RunFrom(lit, dist, input, q) == Run([], RunEnd.Done(end));
  }

  lemma MatchSteps(input: seq<u8>, p: nat, far: bool)
    requires Val(input, p + 3, 7) == 64 && Val(input, p + 10, 5) == (if far then 8 else 0) && Val(input, p + 15, 7) == 0
    ensures StepAt(FixedLit(), FixedDist(), input, p + 3) == Emit(Copy(3, if far then 3 else 1), p + 15)
    ensures StepAt(FixedLit(), FixedDist(), input, p + 15) == EndOfBlock(p + 22)
  {
    hide Val, SymAt, FixedLit, FixedDist, Code, Pow2;
    FixedSizes();
    FixedCodes();
    FixedSymbols(input, p + 3);
    FixedSymbols(input, p + 10);
    FixedSymbols(input, p + 15);
    ValNone(input, p + 10);
    ValNone(input, p + 15);
    MatchTables();
  }

  lemma MatchTables()
    ensures LengthExtra(257) == 0 && LengthBase(257) == 3
    ensures DistanceExtra(0) == 0 && DistanceBase(0) == 1 && DistanceExtra(2) == 0 && DistanceBase(2) == 3
  {
  }

  /** The stored block. */
  lemma StoredSeven()
    ensures BlockAt(BODY, 0) == Block([Lit(7)], false, 48)
  {
    hide Val, StoredFrom, Aligned;
    StoredFields();
    StoredByte(BODY);
    assert Aligned(3) == 8 by { AlignedIs(3, 8); }
  }

  lemma StoredFields()
    ensures |BODY| == 38
    ensures Val(BODY, 0, 1) == 0 && Val(BODY, 1, 2) == 0
    ensures Val(BODY, 8, 16) == 1 && Val(BODY, 24, 16) == 0xfffe && Val(BODY, 40, 8) == 7
  {
    hide Val, Low, Shr;
    assert BODY[0] == 0 && BODY[1] == 1 && BODY[2] == 0 && BODY[3] == 0xfe && BODY[4] == 0xff && BODY[5] == 7;
    ValByte(BODY, 0);
    ValSlice(BODY, 0, 8, 0, 1);
    ValSlice(BODY, 0, 8, 1, 2);
    ZeroSlices();
    SafeInflate.TwoBytes(BODY, 1);
    SafeInflate.TwoBytes(BODY, 3);
    ValByte(BODY, 5);
  }

  lemma ZeroSlices()
    ensures Low(Shr(0, 0), 1) == 0 && Low(Shr(0, 1), 2) == 0
  {
  }

  lemma StoredByte(input: seq<u8>)
    requires Val(input, 40, 8) == 7
    ensures StoredFrom(input, 40, 1) == [Lit(7)]
  {
    hide Val;
    assert ByteAt(input, 40) == 7;
    assert StoredFrom(input, 48, 0) == [];
  }

  // The members

  lemma HeaderIsTen(input: seq<u8>)
    requires |input| >= 10 && input[..10] == [0x1f, 0x8b, 8, 0, 0, 0, 0, 0, 0, 0xff]
    ensures HeaderLength(input) == Some(10)
  {
    assert input[0] == input[..10][0] && input[1] == input[..10][1] && input[2] == input[..10][2];
    assert input[3] == input[..10][3];
    BitZero(1);
    BitZero(2);
    BitZero(3);
    BitZero(4);
    BitZero(5);
    BitZero(6);
    BitZero(7);
  }

  lemma Trailers()
    ensures TrailerAt(BODY, HeaderLength, 70) == NextMember(CRC_FOUR, 4, 216)
    ensures TrailerAt(BODY, HeaderLength, 238) == LastMember(CRC_THREE, 3, 304)
  {
    hide HeaderLength;
    assert Aligned(70) == 72 && Aligned(238) == 240;
    HeaderIsTen(BODY[17..]);
    assert Word32(BODY, 9) == CRC_FOUR && Word32(BODY, 13) == 4;
    assert Word32(BODY, 30) == CRC_THREE && Word32(BODY, 34) == 3;
  }

  /** The source as the walks see it. */
  lemma TwoMembersAre()
    ensures var src := TwoMembers();
      && src.bits == 304
      && src.block(0) == Block([Lit(7)], false, 48)
      && src.block(48) == Block([Copy(3, 1)], true, 70) && src.trailer(70) == NextMember(CRC_FOUR, 4, 216)
      && src.block(216) == Block([Copy(3, 3)], true, 238) && src.trailer(238) == LastMember(CRC_THREE, 3, 304)
  {
    hide BlockAt, TrailerAt, HeaderLength;
    StoredSeven();
    MatchBytes();
    MatchBlock(BODY, 6, false);
    MatchBlock(BODY, 27, true);
    Trailers();
  }

  lemma MatchBytes()
    ensures BODY[6..9] == [3, 2, 0] && BODY[27..30] == [3, 0x22, 0]
  {
    assert BODY[6] == 3 && BODY[7] == 2 && BODY[8] == 0 && BODY[27] == 3 && BODY[28] == 0x22 && BODY[29] == 0;
    forall i | 0 <= i < 3 ensures BODY[6..9][i] == [3, 2, 0][i] && BODY[27..30][i] == [3, 0x22, 0][i] {
      assert i == 0 || i == 1 || i == 2;
    }
  }

  // What the decoders make of it

  lemma CopyThree(s: seq<u8>, d: nat)
    requires 0 < d <= |s|
    ensures var a := s + [s[|s| - d]]; var b := a + [a[|a| - d]];
      Apply(s, [Copy(3, d)]) == Some(b + [b[|b| - d]])
  {
    var a := s + [s[|s| - d]];
    var b := a + [a[|a| - d]];
    assert CopyBack(s, d, 3) == CopyBack(a, d, 2) == CopyBack(b, d, 1) == CopyBack(b + [b[|b| - d]], d, 0);
    assert [Copy(3, d)][1..] == [];
  }

  lemma Sevens()
    ensures Apply([], [Lit(7)]) == Some([7])
    ensures Apply([7], [Copy(3, 1)]) == Some([7, 7, 7, 7])
    ensures Apply([7, 7, 7, 7], [Copy(3, 3)]) == Some([7, 7, 7, 7, 7, 7, 7])
    ensures Apply([0, 0, 0], [Copy(3, 3)]) == Some([0, 0, 0, 0, 0, 0])
    ensures Apply([], [Copy(3, 3)]) == None
  {
    assert [Lit(7)][1..] == [] && [] + [7] == [7];
    CopyThree([7], 1);
    CopyThree([7, 7, 7, 7], 3);
    CopyThree([0, 0, 0], 3);
    hide Apply, CopyBack;
    assert [7] + [7] == [7, 7] && [7, 7] + [7] == [7, 7, 7] && [7, 7, 7] + [7] == [7, 7, 7, 7];
    assert [7, 7, 7, 7] + [7] == [7, 7, 7, 7, 7] && [7, 7, 7, 7, 7] + [7] == [7, 7, 7, 7, 7, 7];
    assert [7, 7, 7, 7, 7, 7] + [7] == [7, 7, 7, 7, 7, 7, 7];
    assert [0, 0, 0] + [0] == [0, 0, 0, 0] && [0, 0, 0, 0] + [0] == [0, 0, 0, 0, 0];
    assert [0, 0, 0, 0, 0] + [0] == [0, 0, 0, 0, 0, 0];
  }

  lemma BlindSevens()
    ensures Blind([], [Lit(7)]) == [Byte(7)]
    ensures Blind([], [Copy(3, 1)]) == [Mark(0), Mark(0), Mark(0)]
    ensures Blind([Byte(7)], [Copy(3, 1)]) == [Byte(7), Byte(7), Byte(7), Byte(7)]
  {
    assert [Lit(7)][1..] == [] && [Copy(3, 1)][1..] == [];
    var m: seq<Cell> := [Mark(0)];
    assert BlindCopy([], 1, 3) == BlindCopy(m, 1, 2) == BlindCopy(m + m, 1, 1) == BlindCopy(m + m + m, 1, 0);
    var s: seq<Cell> := [Byte(7)];
    assert BlindCopy(s, 1, 3) == BlindCopy(s + s, 1, 2) == BlindCopy(s + s + s, 1, 1)
        == BlindCopy(s + s + s + s, 1, 0);
  }

  lemma SerialEscapes()
    ensures Serial(TwoMembers()) == Escape
  {
    hide Apply, TwoMembers, Forward;
    Sevens();
    TwoMembersAre();
    var src := TwoMembers();
    var bs := [Boundary(4, CRC_FOUR, 4)];
    assert [7, 7, 7, 7][4..] == [];
    assert SerialFrom(src, 216, [7, 7, 7, 7], 4, bs, true) == Escape;
    assert [7][0..] == [7] && [7][..0] + [7, 7, 7, 7] == [7, 7, 7, 7] && [] + [Boundary(4, CRC_FOUR, 4)] == bs;
    assert SerialFrom(src, 48, [7], 0, [], true) == Escape;
  }

  /** In one chunk, the second member copies from the first. */
  lemma OneChunkDelivers()
    ensures Pipeline(TwoMembers(), [400])
         == Delivered([7, 7, 7, 7, 7, 7, 7], [Boundary(4, CRC_FOUR, 4), Boundary(7, CRC_THREE, 3)])
  {
    hide Apply, Blind, TwoMembers, Forward;
    Sevens();
    BlindSevens();
    TwoMembersAre();
    var src := TwoMembers();
    var four: seq<Cell> := [Byte(7), Byte(7), Byte(7), Byte(7)];
    assert Lower(four) == [7, 7, 7, 7];
    var seven := four + AsCells([7, 7, 7, 7, 7, 7, 7][4..]);
    assert ChunkBlock(four, false, [Copy(3, 3)]) == Some(seven);
    var first := [Boundary(4, CRC_FOUR, 4)];
    var both := [Boundary(4, CRC_FOUR, 4), Boundary(7, CRC_THREE, 3)];
    assert first + [Boundary(7, CRC_THREE, 3)] == both;
    var c := ChunkFrom(src, 216, 400, false, four, first);
    assert c == Chunk(seven, both, true, 304);
    assert [] + [Boundary(4, CRC_FOUR, 4)] == first;
    assert ChunkFrom(src, 48, 400, true, [Byte(7)], []) == c;
    assert ChunkAt(src, 0, 400) == c;
    assert [] + Resolved(seven, []) == [7, 7, 7, 7, 7, 7, 7];
    assert [] + Shift(both, 0) == both;
  }

  /** Cut before the first match, it copies the placeholders of what that will be. */
  lemma TwoChunksDeliver()
    ensures Pipeline(TwoMembers(), [48, 400]).Delivered?
    ensures Pipeline(TwoMembers(), [48, 400]).out == [7, 7, 7, 7, 0, 0, 0]
  {
    hide Apply, Blind, TwoMembers, Forward;
    Sevens();
    BlindSevens();
    TwoMembersAre();
    var src := TwoMembers();
    assert ChunkFrom(src, 48, 48, true, [Byte(7)], []) == Chunk([Byte(7)], [], false, 48);
    assert ChunkAt(src, 0, 48) == Chunk([Byte(7)], [], false, 48);
    var marks: seq<Cell> := [Mark(0), Mark(0), Mark(0)];
    assert Lower(marks) == [0, 0, 0];
    var six := marks + AsCells([0, 0, 0, 0, 0, 0][3..]);
    assert ChunkBlock(marks, false, [Copy(3, 3)]) == Some(six);
    var c := ChunkFrom(src, 216, 400, false, marks, [Boundary(3, CRC_FOUR, 4)]);
    assert c.Chunk? && c.final && c.cells == six;
    assert [] + [Boundary(3, CRC_FOUR, 4)] == [Boundary(3, CRC_FOUR, 4)];
    assert ChunkAt(src, 48, 400) == c;
    assert [] + Resolved([Byte(7)], []) == [7];
    assert [7] + Resolved(six, [7]) == [7, 7, 7, 7, 0, 0, 0];
    assert [48, 400][1..] == [400];
    var r := ChainFrom(src, [400], 48, [7], [] + Shift([], 0));
    assert r.Delivered? && r.out == [7, 7, 7, 7, 0, 0, 0];
  }

  /** The serial decode refuses the input; the pipeline delivers it, and with a digest that gives what the
      trailers say its members pass. What it delivers depends on the guesses, since a later member copies
      the placeholders of an earlier one in its chunk. */
  lemma CrossMemberReference(h: Hasher)
    ensures var src := SourceOf(BODY, HeaderLength);
      && Serial(src) == Escape && Plausible(src, [400]) && Plausible(src, [48, 400])
      && Pipeline(src, [400]).Delivered? && Pipeline(src, [48, 400]).Delivered?
      && Pipeline(src, [400]).out == [7, 7, 7, 7, 7, 7, 7]
      && (h.of([7, 7, 7, 7]) == CRC_FOUR && h.of([7, 7, 7]) == CRC_THREE ==>
            Checked(h, Pipeline(src, [400]).out, Pipeline(src, [400]).bounds))
      && Pipeline(src, [48, 400]).out == [7, 7, 7, 7, 0, 0, 0]
  {
    hide ChainFrom, SerialFrom, Forward, SourceOf, AllOk, Ordered;
    SerialEscapes();
    OneChunkDelivers();
    TwoChunksDeliver();
    if h.of([7, 7, 7, 7]) == CRC_FOUR && h.of([7, 7, 7]) == CRC_THREE { BothPass(h); }
  }

  lemma BothPass(h: Hasher)
    requires h.of([7, 7, 7, 7]) == CRC_FOUR && h.of([7, 7, 7]) == CRC_THREE
    ensures Checked(h, [7, 7, 7, 7, 7, 7, 7], [Boundary(4, CRC_FOUR, 4), Boundary(7, CRC_THREE, 3)])
  {
    var out: seq<u8> := [7, 7, 7, 7, 7, 7, 7];
    assert out[0..4] == [7, 7, 7, 7] && out[4..7] == [7, 7, 7];
  }
}
