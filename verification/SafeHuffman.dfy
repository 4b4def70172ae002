/** The second, independent table decoder (deflate/safe_inflate.rs): a 9-bit direct table with a
    bit-by-bit canonical walk behind it. */
module SafeHuffman {
  import opened Words
  import opened BitStream
  import opened Canonical
  import Huffman
  import Tables

  const LUT_BITS: nat := 9

  const LUT_SIZE: nat := 512

  /** `lut_pack`: symbol above an eight-bit length. */
  function LutPack(sym: nat, len: nat): nat {
    sym * 0x100 + len
  }

  function LutLen(e: nat): nat { e % 0x100 }

  function LutSym(e: nat): nat { e / 0x100 }

  /** One swap stage: the bits selected by the two masks trade places at distance s. */
  function SwapBits(x: nat, lo: nat, hi: nat, s: nat): nat {
    Or(Shl(And(x, lo), s), Shr(And(x, hi), s))
  }

  /** `reverse_bits`: swaps at distance 1, 2, 4 and, unmasked, 8. */
  function ReverseBits(code: nat, bits: nat): nat
    requires bits <= 16
  {
    var z := ByteSwapped(code);
    Shr(Or(Shl(z, 8), Shr(z, 8)), 16 - bits)
  }

  lemma SwapStage(x: nat, lo: nat, hi: nat, s: nat, i: nat)
    ensures Bit(SwapBits(x, lo, hi, s), i) ==
      ((i >= s && Bit(x, i - s) && Bit(lo, i - s)) || (Bit(x, i + s) && Bit(hi, i + s)))
  {
    BitOr(Shl(And(x, lo), s), Shr(And(x, hi), s), i);
    BitShl(And(x, lo), s, i);
    BitShr(And(x, hi), s, i);
    BitAnd(x, hi, i + s);
    if i >= s { BitAnd(x, lo, i - s); }
  }

  /** The masks of the three stages, over the sixteen bits they cover. */
  lemma MaskBits(i: nat)
    ensures Bit(0x5555, i) == (i < 16 && i % 2 == 0)
    ensures Bit(0xAAAA, i) == (i < 16 && i % 2 == 1)
    ensures Bit(0x3333, i) == (i < 16 && i / 2 % 2 == 0)
    ensures Bit(0xCCCC, i) == (i < 16 && i / 2 % 2 == 1)
    ensures Bit(0x0F0F, i) == (i < 16 && i / 4 % 2 == 0)
    ensures Bit(0xF0F0, i) == (i < 16 && i / 4 % 2 == 1)
  {
    hide Bit;
    Twice(0x55, i);
    Twice(0xAA, i);
    Twice(0x33, i);
    Twice(0xCC, i);
    Twice(0x0F, i);
    Twice(0xF0, i);
    ByteMaskBits(i % 8);
  }

  /** A mask of two equal bytes. */
  lemma Twice(d: nat, i: nat)
    requires d < 256
    ensures Bit(d * 0x101, i) == (i < 16 && Bit(d, i % 8))
  {
    hide Bit;
    assert Pow2(8) == 256;
    Tables.ShlEight(d);
    BitCat(d, d, 8, i);
    if i >= 16 { SmallBits(d, 8, i - 8); }
  }

  lemma ByteMaskBits(k: nat)
    requires k < 8
    ensures Bit(0x55, k) == (k % 2 == 0) && Bit(0xAA, k) == (k % 2 == 1)
    ensures Bit(0x33, k) == (k / 2 % 2 == 0) && Bit(0xCC, k) == (k / 2 % 2 == 1)
    ensures Bit(0x0F, k) == (k / 4 % 2 == 0) && Bit(0xF0, k) == (k / 4 % 2 == 1)
  {
    if k > 3 {
      Nibble(0x5, 0xA, k - 4);
      Nibble(0x3, 0xC, k - 4);
      Nibble(0x0, 0xF, k - 4);
    } else {
      Nibble(0x55, 0xAA, k);
      Nibble(0x33, 0xCC, k);
      Nibble(0x0F, 0xF0, k);
    }
    HighNibble(0x55, k);
    HighNibble(0xAA, k);
    HighNibble(0x33, k);
    HighNibble(0xCC, k);
    HighNibble(0x0F, k);
    HighNibble(0xF0, k);
  }

  lemma HighNibble(m: nat, k: nat)
    ensures k >= 4 ==> Bit(m, k) == Bit(m / 16, k - 4)
  {
    if k >= 4 {
      assert Bit(m, k) == Bit(m / 2, k - 1) == Bit(m / 2 / 2, k - 2);
      assert Bit(m / 4, k - 2) == Bit(m / 4 / 2, k - 3) == Bit(m / 4 / 2 / 2, k - 4);
      assert m / 4 / 2 / 2 == m / 16;
    }
  }

  lemma Nibble(m: nat, n: nat, k: nat)
    requires k < 4
    ensures Bit(m, k) == if k == 0 then m % 2 == 1 else if k == 1 then m / 2 % 2 == 1
                         else if k == 2 then m / 4 % 2 == 1 else m / 8 % 2 == 1
    ensures Bit(n, k) == if k == 0 then n % 2 == 1 else if k == 1 then n / 2 % 2 == 1
                         else if k == 2 then n / 4 % 2 == 1 else n / 8 % 2 == 1
  {
    assert m / 2 / 2 == m / 4 && m / 2 / 2 / 2 == m / 8;
    assert n / 2 / 2 == n / 4 && n / 2 / 2 / 2 == n / 8;
  }

  lemma StageOne(x: nat, i: nat)
    ensures Bit(SwapBits(x, 0x5555, 0xAAAA, 1), i) ==
      (i < 16 && Bit(x, if i % 2 == 1 then i - 1 else i + 1))
  {
    hide SwapBits, Bit;
    SwapStage(x, 0x5555, 0xAAAA, 1, i);
    MaskBits(i + 1);
    if i >= 1 { MaskBits(i - 1); }
  }

  lemma StageTwo(x: nat, i: nat)
    ensures Bit(SwapBits(x, 0x3333, 0xCCCC, 2), i) ==
      (i < 16 && Bit(x, if i / 2 % 2 == 1 then i - 2 else i + 2))
  {
    hide SwapBits, Bit;
    SwapStage(x, 0x3333, 0xCCCC, 2, i);
    MaskBits(i + 2);
    if i >= 2 { MaskBits(i - 2); }
  }

  lemma StageFour(x: nat, i: nat)
    ensures Bit(SwapBits(x, 0x0F0F, 0xF0F0, 4), i) ==
      (i < 16 && Bit(x, if i / 4 % 2 == 1 then i - 4 else i + 4))
  {
    hide SwapBits, Bit;
    SwapStage(x, 0x0F0F, 0xF0F0, 4, i);
    MaskBits(i + 4);
    if i >= 4 { MaskBits(i - 4); }
  }

  /** The three masked stages reverse each byte. */
  function ByteSwapped(code: nat): nat {
    SwapBits(SwapBits(SwapBits(code, 0x5555, 0xAAAA, 1), 0x3333, 0xCCCC, 2), 0x0F0F, 0xF0F0, 4)
  }

  lemma ByteSwappedBit(code: nat, i: nat)
    ensures Bit(ByteSwapped(code), i) == (i < 16 && Bit(code, i / 8 * 8 + 7 - i % 8))
  {
    hide SwapBits, Bit;
    var x := SwapBits(code, 0x5555, 0xAAAA, 1);
    var y := SwapBits(x, 0x3333, 0xCCCC, 2);
    StageFour(y, i);
    if i < 16 {
      var j := if i / 4 % 2 == 1 then i - 4 else i + 4;
      StageTwo(x, j);
      var k := if j / 2 % 2 == 1 then j - 2 else j + 2;
      StageOne(code, k);
    }
  }

  /** Below `bits`, `reverse_bits` holds the code's bits in the opposite order. */
  lemma ReverseBitsBit(code: nat, bits: nat, i: nat)
    requires i < bits <= 16
    ensures Bit(ReverseBits(code, bits), i) == Bit(code, bits - 1 - i)
  {
    hide SwapBits, Bit, Or, Shl, Shr;
    var z := ByteSwapped(code);
    var j := i + 16 - bits;
    BitShr(Or(Shl(z, 8), Shr(z, 8)), 16 - bits, i);
    BitOr(Shl(z, 8), Shr(z, 8), j);
    BitShl(z, 8, j);
    BitShr(z, 8, j);
    ByteSwappedBit(code, j + 8);
    if j >= 8 { ByteSwappedBit(code, j - 8); }
  }

  lemma {:induction false} BitReverse(c: nat, l: nat, i: nat)
    requires i < l
    ensures Bit(Reverse(c, l), i) == Bit(c, l - 1 - i)
  {
    ReverseBound(c / 2, l - 1);
    BitCat(Reverse(c / 2, l - 1), c % 2, l - 1, i);
    if i < l - 1 { BitReverse(c / 2, l - 1, i); }
  }

  lemma {:induction false} ReverseJunk(c: nat, y: nat, l: nat)
    ensures Reverse(c + Shl(y, l), l) == Reverse(c, l)
  {
    if l > 0 {
      assert (c + Shl(y, l)) / 2 == c / 2 + Shl(y, l - 1);
      ReverseJunk(c / 2, y, l - 1);
    }
  }

  /** The table index it yields selects by the reversed code, whatever stands above the code. */
  lemma ReverseBitsLow(c: nat, y: nat, l: nat)
    requires l <= 16
    ensures Low(ReverseBits(c + Shl(y, l), l), l) == Reverse(c, l)
  {
    hide Bit, ReverseBits, Shl, Low;
    var d := c + Shl(y, l);
    forall i: nat | i < l ensures Bit(ReverseBits(d, l), i) == Bit(Reverse(d, l), i) {
      ReverseBitsBit(d, l, i);
      BitReverse(d, l, i);
    }
    LowExt(ReverseBits(d, l), Reverse(d, l), l);
    ReverseBound(d, l);
    LowSmall(Reverse(d, l), l);
    ReverseJunk(c, y, l);
  }

  /** A nonzero slot names the symbol of the canonical code. Slots may stay 0 although a short code
      selects them. */
  predicate SlotSound(lengths: seq<nat>, idx: nat, e: nat) {
    var s := Sym(lengths, idx);
    e == 0 || (s >= 0 && 0 < lengths[s] <= LUT_BITS && e == LutPack(s, lengths[s]))
  }

  /** Where the builder starts to fill the slots of a symbol: at the reversed code with, above it, what the
      uncleared count of uncoded symbols has left there. */
  function BaseOf(lengths: seq<nat>, s: nat): nat
    requires s < |lengths| && lengths[s] <= LUT_BITS
  {
    ReverseBits(Code(lengths, s) + Shl(CountTo(lengths, 0, |lengths|), lengths[s]), lengths[s])
  }

  /** A slot once the symbols before n have been entered: its symbol, unless the base lies past it. */
  function FilledSlot(lengths: seq<nat>, n: nat, idx: nat): nat {
    var s := Sym(lengths, idx);
    if 0 <= s < n && s < |lengths| && 0 < lengths[s] <= LUT_BITS && BaseOf(lengths, s) <= idx
    then LutPack(s, lengths[s]) else 0
  }

  /** With every symbol coded a slot is filled exactly when the code that selects it is below 256: the last
      swap is not masked, so the ninth bit of a code that has it comes out above the table's index. */
  lemma AllCodedSlots(lengths: seq<nat>, idx: nat)
    requires ShortLengths(lengths) && Fits(lengths) && forall i | 0 <= i < |lengths| :: lengths[i] > 0
    requires idx < LUT_SIZE && Sym(lengths, idx) >= 0 && lengths[Sym(lengths, idx)] <= LUT_BITS
    ensures var s := Sym(lengths, idx);
      FilledSlot(lengths, |lengths|, idx) == if Code(lengths, s) < 0x100 then LutPack(s, lengths[s]) else 0
  {
    hide ReverseBits, Low, Bit, Reverse, Shl, Fits, ShortLengths, Code;
    var s := Sym(lengths, idx);
    var l := lengths[s];
    var c := Code(lengths, s);
    NoneUncoded(lengths, |lengths|);
    ShlOne(l);
    CodeBound(lengths, s);
    BaseBelow(idx, c, l);
  }

  /** A slot the reversed code selects is not below it, unless the code has a ninth bit. */
  lemma BaseBelow(idx: nat, c: nat, l: nat)
    requires idx < LUT_SIZE && l <= LUT_BITS && c < Pow2(l) && Msb(idx, l) == c
    ensures ReverseBits(c, l) <= idx <==> c < 0x100
  {
    hide ReverseBits, Low, Bit, Reverse, Msb;
    MsbVersusLow(idx, c, l);
    if c < 0x100 {
      ReverseBitsSmall(c, l);
      LowAtMost(idx, l);
    } else {
      NinthBit(c, l);
    }
  }

  /** The ninth bit of a code, reversed, is bit 16. */
  lemma NinthBit(c: nat, l: nat)
    requires 0x100 <= c < Pow2(l) && l <= LUT_BITS
    ensures ReverseBits(c, l) >= LUT_SIZE
  {
    hide SwapBits, Bit, Or, Shl, Shr;
    assert Pow2(8) == 256;
    if l < 9 { Pow2Mono(l, 8); }
    var z := ByteSwapped(c);
    ByteSwappedBit(c, 15);
    TopBit(c);
    BitShr(Or(Shl(z, 8), Shr(z, 8)), 7, 16);
    BitOr(Shl(z, 8), Shr(z, 8), 23);
    BitShl(z, 8, 23);
    if ReverseBits(c, l) < LUT_SIZE {
      assert Pow2(9) == 512;
      SmallBits(ReverseBits(c, l), 9, 16);
    }
  }

  lemma TopBit(c: nat)
    requires 0x100 <= c < 0x200
    ensures Bit(c, 8)
  {
    var y := c - 0x100;
    assert Pow2(8) == 256;
    Tables.ShlEight(1);
    BitCat(y, 1, 8, 8);
  }

  /** Above a code of eight bits the swaps leave nothing. */
  lemma ReverseBitsAbove(c: nat, l: nat, i: nat)
    requires c < 0x100 && l <= LUT_BITS && l <= i
    ensures !Bit(ReverseBits(c, l), i)
  {
    hide SwapBits, Bit, Or, Shl, Shr;
    assert Pow2(8) == 256;
    var z := ByteSwapped(c);
    var j := i + 16 - l;
    BitShr(Or(Shl(z, 8), Shr(z, 8)), 16 - l, i);
    BitOr(Shl(z, 8), Shr(z, 8), j);
    BitShl(z, 8, j);
    BitShr(z, 8, j);
    ByteSwappedBit(c, j - 8);
    ByteSwappedBit(c, j + 8);
    if j - 8 < 16 { SmallBits(c, 8, (j - 8) / 8 * 8 + 7 - (j - 8) % 8); }
  }

  lemma {:induction false} NoneUncoded(lengths: seq<nat>, n: nat)
    requires n <= |lengths| && forall i | 0 <= i < |lengths| :: lengths[i] > 0
    ensures CountTo(lengths, 0, n) == 0
  {
    if n > 0 { NoneUncoded(lengths, n - 1); }
  }

  lemma {:induction false} LowAtMost(x: nat, n: nat)
    ensures Low(x, n) <= x
  {
    if n > 0 { LowAtMost(x / 2, n - 1); }
  }

  /** So a code below 256 is reversed exactly. */
  lemma ReverseBitsSmall(c: nat, l: nat)
    requires c < 0x100 && c < Pow2(l) && l <= LUT_BITS
    ensures ReverseBits(c, l) == Reverse(c, l)
  {
    hide Bit, ReverseBits, Reverse, Low;
    var x, y := ReverseBits(c, l), Reverse(c, l);
    var n := x + y + 1;
    ReverseBound(c, l);
    forall i: nat | i < n ensures Bit(x, i) == Bit(y, i) {
      if i < l {
        ReverseBitsBit(c, l, i);
        BitReverse(c, l, i);
      } else {
        SmallBits(y, l, i);
        ReverseBitsAbove(c, l, i);
      }
    }
    LowExt(x, y, n);
    BelowPower(x, n);
    BelowPower(y, n);
    LowSmall(x, n);
    LowSmall(y, n);
  }

  lemma {:induction false} BelowPower(x: nat, n: nat)
    requires x < n
    ensures x < Pow2(n)
  {
    if x > 0 { BelowPower(x - 1, n - 1); }
  }

  class Table {
    const count: array<nat>
    const symbol: array<nat>
    const lut: array<nat>
    ghost var lengths: seq<nat>

    ghost predicate Valid()
      reads this, count, symbol, lut
    {
      && count.Length == 16 && lut.Length == LUT_SIZE
      && ShortLengths(lengths) && Fits(lengths)
      && (forall l: nat | 1 <= l <= 15 :: count[l] == Count(lengths, l))
      && Huffman.SortedSymbols(lengths, symbol[..], |lengths|)
      && (forall idx: nat | idx < LUT_SIZE :: SlotSound(lengths, idx, lut[idx]))
    }

    constructor (capacity: nat)
      ensures Shape() && symbol.Length == capacity && fresh(count) && fresh(symbol) && fresh(lut)
    {
      count := new nat[16](_ => 0);
      symbol := new nat[capacity](_ => 0);
      lut := new nat[LUT_SIZE](_ => 0);
    }

    ghost predicate Shape() {
      count.Length == 16 && lut.Length == LUT_SIZE && count != symbol && count != lut && symbol != lut
    }

    /** `construct`: rejects a length above 15 and an over-subscribed code, by a running count of the
        codes left over; every other vector gets tables whose walk decodes its canonical code. */
    method Construct(lengths: seq<nat>) returns (r: Result<int>)
      requires Shape() && |lengths| <= symbol.Length
      modifies this, count, symbol, lut
      ensures r.Ok? <==> ShortLengths(lengths) && Fits(lengths)
      ensures r.Err? ==> r == Err(Invalid)
      ensures r.Ok? ==> Valid() && this.lengths == lengths
      ensures r.Ok? ==> r.value == if CountTo(lengths, 0, |lengths|) == |lengths| then 0 else Left(lengths, 15)
      ensures r.Ok? ==> forall idx: nat | idx < LUT_SIZE :: lut[idx] == FilledSlot(lengths, |lengths|, idx)
    {
      ClearLut();
      var ok := CountSymbols(lengths);
      if !ok {
        return Err(Invalid);
      }
      if count[0] == |lengths| {
        NoCodes(lengths);
        forall idx: nat | idx < LUT_SIZE ensures FilledSlot(lengths, |lengths|, idx) == 0 { }
        this.lengths := lengths;
        return Ok(0);
      }
      var left := CountLeft(lengths);
      if left < 0 {
        return Err(Invalid);
      }
      PlaceSymbols(lengths);
      FillLut(lengths);
      this.lengths := lengths;
      r := Ok(left);
    }

    /** The codes left over by the counts, or a negative number as soon as there are too few. */
    method CountLeft(lengths: seq<nat>) returns (left: int)
      requires Shape() && ShortLengths(lengths)
      requires forall l: nat | l <= 15 :: count[l] == CountTo(lengths, l, |lengths|)
      ensures left >= 0 <==> Fits(lengths)
      ensures left >= 0 ==> left == Left(lengths, 15)
    {
      LeftDecides(lengths);
      left := 1;
      var len := 1;
      while len <= 15
        invariant 1 <= len <= 16
        invariant left == Left(lengths, len - 1)
        invariant forall l: nat | l < len :: Left(lengths, l) >= 0
      {
        left := 2 * left - count[len];
        if left < 0 {
          assert Left(lengths, len) < 0;
          return;
        }
        len := len + 1;
      }
    }

    method ClearLut()
      requires Shape()
      modifies lut
      ensures forall idx: nat | idx < LUT_SIZE :: lut[idx] == 0
    {
      var k := 0;
      while k < LUT_SIZE
        invariant 0 <= k <= LUT_SIZE
        invariant forall j: nat | j < k :: lut[j] == 0
      {
        lut[k] := 0;
        k := k + 1;
      }
    }

    /** Symbols per length, those without a code under length 0. */
    method CountSymbols(lengths: seq<nat>) returns (ok: bool)
      requires Shape()
      modifies count
      ensures ok <==> ShortLengths(lengths)
      ensures ok ==> forall l: nat | l <= 15 :: count[l] == CountTo(lengths, l, |lengths|)
    {
      var z := 0;
      while z < 16
        invariant 0 <= z <= 16
        invariant forall l: nat | l < z :: count[l] == 0
      {
        count[z] := 0;
        z := z + 1;
      }
      var k := 0;
      while k < |lengths|
        invariant 0 <= k <= |lengths|
        invariant forall i | 0 <= i < k :: lengths[i] <= 15
        invariant forall l: nat | l <= 15 :: count[l] == CountTo(lengths, l, k)
      {
        if lengths[k] > MAX_CODE_LEN {
          return false;
        }
        count[lengths[k]] := count[lengths[k]] + 1;
        k := k + 1;
      }
      ok := true;
    }

    method PlaceSymbols(lengths: seq<nat>)
      requires Shape() && |lengths| <= symbol.Length && ShortLengths(lengths)
      requires forall l: nat | l <= 15 :: count[l] == CountTo(lengths, l, |lengths|)
      modifies symbol
      ensures Huffman.SortedSymbols(lengths, symbol[..], |lengths|)
    {
      hide First, Offset, Huffman.SortedSymbols;
      var offs := Offsets(lengths);
      assert Huffman.SortedSymbols(lengths, symbol[..], 0) by { NonePlaced(lengths, symbol[..]); }
      var sym: nat := 0;
      while sym < |lengths|
        invariant 0 <= sym <= |lengths|
        invariant forall m: nat | 1 <= m <= 15 :: offs[m] == Offset(lengths, m) + CountTo(lengths, m, sym)
        invariant Huffman.SortedSymbols(lengths, symbol[..], sym)
      {
        if lengths[sym] != 0 {
          PlaceOne(lengths, sym, offs[lengths[sym]]);
          offs[lengths[sym]] := offs[lengths[sym]] + 1;
        } else {
          Uncoded(lengths, symbol[..], sym);
        }
        sym := sym + 1;
      }
    }

    method PlaceOne(lengths: seq<nat>, sym: nat, place: nat)
      requires |lengths| <= symbol.Length && sym < |lengths| && lengths[sym] > 0
      requires place == Huffman.Place(lengths, sym)
      requires Huffman.SortedSymbols(lengths, symbol[..], sym)
      modifies symbol
      ensures Huffman.SortedSymbols(lengths, symbol[..], sym + 1)
    {
      hide Offset;
      Huffman.SortStep(lengths, symbol[..], sym);
      ghost var before := symbol[..];
      symbol[place] := sym;
      assert symbol[..] == before[place := sym];
    }

    method Offsets(lengths: seq<nat>) returns (offs: array<nat>)
      requires Shape()
      requires forall l: nat | l <= 15 :: count[l] == CountTo(lengths, l, |lengths|)
      ensures fresh(offs) && offs.Length == 16
      ensures forall m: nat | 1 <= m <= 15 :: offs[m] == Offset(lengths, m)
    {
      offs := new nat[16](_ => 0);
      assert Offset(lengths, 1) == Offset(lengths, 0) + Count(lengths, 0);
      var len := 1;
      while len < 15
        invariant 1 <= len <= 15
        invariant forall m: nat | 1 <= m <= len :: offs[m] == Offset(lengths, m)
      {
        offs[len + 1] := offs[len] + count[len];
        len := len + 1;
      }
    }

    /** First codes as the source computes them: the symbols without a code are counted in, which
        leaves their number standing above each code. */
    method NextCodes(lengths: seq<nat>) returns (nextCode: array<nat>)
      requires Shape()
      requires forall l: nat | l <= 15 :: count[l] == CountTo(lengths, l, |lengths|)
      ensures fresh(nextCode) && nextCode.Length == 17
      ensures forall l: nat | 1 <= l <= 15 :: nextCode[l] == First(lengths, l) + Shl(count[0], l)
    {
      hide First, Shl;
      nextCode := new nat[17](_ => 0);
      var code := 0;
      var bits := 1;
      while bits <= 15
        invariant 1 <= bits <= 16
        invariant if bits == 1 then code == 0 else code == First(lengths, bits - 1) + Shl(count[0], bits - 1)
        invariant forall l: nat | 1 <= l < bits :: nextCode[l] == First(lengths, l) + Shl(count[0], l)
      {
        code := 2 * (code + count[bits - 1]);
        Unfold(lengths, bits - 1);
        Canonical.ShlDouble(count[0], bits - 1);
        if bits == 1 { ShlNone(count[0]); }
        nextCode[bits] := code;
        bits := bits + 1;
      }
    }

    method FillLut(lengths: seq<nat>)
      requires Shape() && ShortLengths(lengths) && Fits(lengths)
      requires forall l: nat | l <= 15 :: count[l] == CountTo(lengths, l, |lengths|)
      requires forall idx: nat | idx < LUT_SIZE :: lut[idx] == 0
      modifies lut
      ensures forall idx: nat | idx < LUT_SIZE :: lut[idx] == FilledSlot(lengths, |lengths|, idx)
      ensures forall idx: nat | idx < LUT_SIZE :: SlotSound(lengths, idx, lut[idx])
    {
      hide SlotSound, FilledSlot, First, ReverseBits, Shl, Fits;
      forall idx: nat | idx < LUT_SIZE ensures FilledSlot(lengths, 0, idx) == 0 { NoneFilled(lengths, idx); }
      var nextCode := NextCodes(lengths);
      var sym: nat := 0;
      while sym < |lengths|
        invariant 0 <= sym <= |lengths|
        invariant forall l: nat | 1 <= l <= LUT_BITS ::
          nextCode[l] == First(lengths, l) + Shl(count[0], l) + CountTo(lengths, l, sym)
        invariant forall idx: nat | idx < LUT_SIZE :: lut[idx] == FilledSlot(lengths, sym, idx)
      {
        var len := lengths[sym];
        forall idx: nat | len == 0 || len > LUT_BITS
          ensures FilledSlot(lengths, sym + 1, idx) == FilledSlot(lengths, sym, idx)
        {
          SymSkipped(lengths, sym, idx);
        }
        if len != 0 && len <= LUT_BITS {
          var c := nextCode[len];
          nextCode[len] := c + 1;
          assert c == Code(lengths, sym) + Shl(count[0], len);
          ReverseBitsLow(Code(lengths, sym), count[0], len);
          FillStride(lengths, sym, ReverseBits(c, len));
        }
        sym := sym + 1;
      }
      forall idx: nat | idx < LUT_SIZE ensures SlotSound(lengths, idx, lut[idx]) {
        FilledIsSound(lengths, sym, idx);
      }
    }

    /** From the base on, every slot of the stride is selected by the reversed code, and no other is. */
    method FillStride(lengths: seq<nat>, sym: nat, base: nat)
      requires Shape() && ShortLengths(lengths) && Fits(lengths)
      requires sym < |lengths| && 0 < lengths[sym] <= LUT_BITS && base == BaseOf(lengths, sym)
      requires Low(base, lengths[sym]) == Reverse(Code(lengths, sym), lengths[sym])
      requires forall idx: nat | idx < LUT_SIZE :: lut[idx] == FilledSlot(lengths, sym, idx)
      modifies lut
      ensures forall idx: nat | idx < LUT_SIZE :: lut[idx] == FilledSlot(lengths, sym + 1, idx)
    {
      hide FilledSlot, BaseOf, Code, Reverse, Low, Fits;
      var len := lengths[sym];
      var entry := LutPack(sym, len);
      var step := Pow2(len);
      var idx := base;
      while idx < LUT_SIZE
        invariant Low(idx, len) == Low(base, len) && idx >= base
        invariant forall j: nat | j < LUT_SIZE ::
          lut[j] == if base <= j < idx && Low(j, len) == Low(base, len) then entry else old(lut[j])
        decreases LUT_SIZE - idx
      {
        lut[idx] := entry;
        Huffman.NoneBetween(idx, len);
        LowStride(idx, len);
        idx := idx + step;
      }
      forall j: nat | j < LUT_SIZE ensures lut[j] == FilledSlot(lengths, sym + 1, j) {
        SymFilled(lengths, sym, j);
      }
    }

    /** `decode_short`: the canonical walk over the buffered bits, one bit at a time. */
    method DecodeShort(br: BitReader) returns (r: Result<nat>)
      requires Valid() && br.Valid()
      modifies br
      ensures br.Valid()
      ensures var p := old(br.TellBit());
        var s := Huffman.SymAt(lengths, br.input, p);
        if s >= 0 && lengths[s] <= old(br.bits) then
          && r == Ok(s) && br.TellBit() == p + lengths[s] && br.bits == old(br.bits) - lengths[s]
        else
          && r == Err(if old(br.bits) < 15 then UnexpectedEof else Invalid)
          && br.TellBit() == p && br.bits == old(br.bits)
    {
      hide Agrees, Pow2, Val, Sym, Fits, ShortLengths;
      var len, s := Walk(br.buf, br.bits);
      BufferedWindow(lengths, br.buf, br.bits, br.input, br.TellBit());
      if len == 0 {
        return Err(if br.bits < 15 then UnexpectedEof else Invalid);
      }
      br.Consume(len);
      r := Ok(s);
    }

    /** The walk itself: the length and symbol of the code that starts `w`, as far as `available`
        bits reach, or length 0. */
    method Walk(w: nat, available: nat) returns (len: nat, s: nat)
      requires Valid()
      ensures var t := Sym(lengths, w);
        if t >= 0 && lengths[t] <= available then s == t && len == lengths[t] > 0 else len == 0
    {
      hide Fits, Huffman.SortedSymbols, Bit, Offset;
      var code, first, index := 0, 0, 0;
      len := 1;
      Unfold(lengths, 0);
      while len <= 15
        invariant 1 <= len <= 16
        invariant len - 1 <= available
        invariant code == 2 * Msb(w, len - 1)
        invariant first == First(lengths, len) && index == Offset(lengths, len)
        invariant code >= first
        invariant forall t: nat | t < |lengths| && lengths[t] < len :: !Matches(lengths, t, w)
      {
        if available == len - 1 {
          NoMatch(lengths, w, len);
          return 0, 0;
        }
        code := code + BitVal(Bit(w, len - 1));
        var count := this.count[len];
        if code < first + count {
          s := Found(w, len, index, code - first);
          return;
        }
        NoneOfLength(lengths, w, len);
        Unfold(lengths, len);
        index := index + count;
        first := 2 * (first + count);
        code := 2 * code;
        len := len + 1;
      }
      NoMatch(lengths, w, 16);
      len, s := 0, 0;
    }

    method Found(w: nat, len: nat, index: nat, rank: nat) returns (s: nat)
      requires Valid() && 1 <= len <= 15
      requires index == Offset(lengths, len) && rank < Count(lengths, len)
      requires Msb(w, len) == First(lengths, len) + rank
      ensures Sym(lengths, w) == s && s < |lengths| && lengths[s] == len
    {
      hide Sym, Fits, Msb, First;
      Huffman.SortedAt(lengths, symbol[..], len, rank);
      s := symbol[index + rank];
      SymIs(lengths, s, w);
    }
  }

  lemma Unfold(lengths: seq<nat>, l: nat)
    ensures First(lengths, l + 1) == 2 * (First(lengths, l) + Count(lengths, l))
    ensures Offset(lengths, l + 1) == Offset(lengths, l) + Count(lengths, l)
    ensures l == 0 ==> First(lengths, 0) == Offset(lengths, 0) == Count(lengths, 0) == 0
  {
  }

  lemma NonePlaced(lengths: seq<nat>, sorted: seq<nat>)
    ensures Huffman.SortedSymbols(lengths, sorted, 0)
  {
  }

  lemma Uncoded(lengths: seq<nat>, sorted: seq<nat>, sym: nat)
    requires sym < |lengths| && lengths[sym] == 0 && Huffman.SortedSymbols(lengths, sorted, sym)
    ensures Huffman.SortedSymbols(lengths, sorted, sym + 1)
  {
  }

  lemma ShlNone(x: nat)
    ensures Shl(x, 0) == x
  {
  }

  lemma NoneOfLength(lengths: seq<nat>, w: nat, len: nat)
    requires Msb(w, len) >= First(lengths, len) + Count(lengths, len)
    ensures forall t: nat | t < |lengths| && lengths[t] == len :: !Matches(lengths, t, w)
  {
    forall t: nat | t < |lengths| && lengths[t] == len ensures !Matches(lengths, t, w) {
      if len > 0 { RankBelow(lengths, t); }
    }
  }

  lemma NoMatch(lengths: seq<nat>, w: nat, len: nat)
    requires forall t: nat | t < |lengths| && lengths[t] < len :: !Matches(lengths, t, w)
    ensures Sym(lengths, w) < 0 || lengths[Sym(lengths, w)] >= len
  {
  }

  lemma FilledIsSound(lengths: seq<nat>, n: nat, idx: nat)
    ensures SlotSound(lengths, idx, FilledSlot(lengths, n, idx))
  {
  }

  lemma NoneFilled(lengths: seq<nat>, idx: nat)
    ensures FilledSlot(lengths, 0, idx) == 0
  {
  }

  lemma SymSkipped(lengths: seq<nat>, sym: nat, idx: nat)
    requires sym < |lengths| && (lengths[sym] == 0 || lengths[sym] > LUT_BITS)
    ensures FilledSlot(lengths, sym + 1, idx) == FilledSlot(lengths, sym, idx)
  {
  }

  /** Entering a symbol fills the slots its reversed code selects, from its base on. */
  lemma SymFilled(lengths: seq<nat>, sym: nat, idx: nat)
    requires ShortLengths(lengths) && Fits(lengths)
    requires sym < |lengths| && 0 < lengths[sym] <= LUT_BITS
    ensures FilledSlot(lengths, sym + 1, idx) ==
      if BaseOf(lengths, sym) <= idx && Low(idx, lengths[sym]) == Reverse(Code(lengths, sym), lengths[sym])
      then LutPack(sym, lengths[sym]) else FilledSlot(lengths, sym, idx)
  {
    hide Code, Reverse, Low, BaseOf, Fits;
    CodeBound(lengths, sym);
    MsbVersusLow(idx, Code(lengths, sym), lengths[sym]);
    if Matches(lengths, sym, idx) { SymIs(lengths, sym, idx); }
  }

  /** A vector of zeros has no codes at all. */
  lemma NoCodes(lengths: seq<nat>)
    requires CountTo(lengths, 0, |lengths|) == |lengths|
    ensures ShortLengths(lengths) && Fits(lengths)
    ensures forall i | 0 <= i < |lengths| :: lengths[i] == 0
    ensures forall l: nat :: Count(lengths, l) == 0
  {
    AllZero(lengths, |lengths|);
    forall l: nat ensures Count(lengths, l) == 0 && First(lengths, l) == 0 {
      NoneCounted(lengths, l, |lengths|);
      FirstZero(lengths, l);
    }
  }

  lemma {:induction false} AllZero(lengths: seq<nat>, n: nat)
    requires n <= |lengths| && CountTo(lengths, 0, n) == n
    ensures forall i | 0 <= i < n :: lengths[i] == 0
  {
    if n > 0 { AllZero(lengths, n - 1); }
  }

  lemma {:induction false} NoneCounted(lengths: seq<nat>, l: nat, n: nat)
    requires n <= |lengths| && forall i | 0 <= i < |lengths| :: lengths[i] == 0
    ensures l > 0 ==> CountTo(lengths, l, n) == 0
  {
    if n > 0 { NoneCounted(lengths, l, n - 1); }
  }

  lemma {:induction false} FirstZero(lengths: seq<nat>, l: nat)
    requires forall i | 0 <= i < |lengths| :: lengths[i] == 0
    ensures First(lengths, l) == 0
  {
    if l > 0 {
      FirstZero(lengths, l - 1);
      NoneCounted(lengths, l - 1, |lengths|);
    }
  }

  /** A code that the buffered bits cover matches the buffer exactly when it matches the stream. */
  lemma BufferedWindow(lengths: seq<nat>, buf: nat, bits: nat, input: seq<u8>, p: nat)
    requires ShortLengths(lengths) && Agrees(buf, bits, input, p)
    ensures var s, t := Sym(lengths, buf), Huffman.SymAt(lengths, input, p);
      (s >= 0 && lengths[s] <= bits) || (t >= 0 && lengths[t] <= bits) ==> s == t
  {
    hide Agrees, Val;
    var w := Val(input, p, 15);
    forall i: nat | i < |lengths| && lengths[i] <= bits
      ensures Matches(lengths, i, buf) == Matches(lengths, i, w)
    {
      AgreesLow(buf, bits, input, p, lengths[i]);
      LowVal(input, p, 15, lengths[i]);
      MsbLocal(buf, w, lengths[i]);
    }
    var s, t := Sym(lengths, buf), Sym(lengths, w);
    if s >= 0 && lengths[s] <= bits { SymIs(lengths, s, w); }
    if t >= 0 && lengths[t] <= bits { SymIs(lengths, t, buf); }
  }
}
