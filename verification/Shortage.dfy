/** An unexpected end of input is just that: for every input, position and output, some more bytes settle the
    block, one way or the other (lib.rs, deflate/inflate.rs). */
module Shortage {
  import opened Words
  import opened BitStream
  import opened Canonical
  import opened Tables
  import opened Huffman
  import opened Lz77
  import opened Deflate
  import opened Kernels
  import opened Blocks
  import opened Pieces
  import opened Written
  import opened ComesBack
  import SafeInflate
  import G = GzipHeader
  import F = Format

  // The header

  /** With room for every length that is still to come, no lookup runs out. */
  lemma {:induction false} LengthsSettle(cl: seq<nat>, input: seq<u8>, p: nat, acc: seq<nat>, total: nat)
    requires ShortLengths(cl) && |acc| <= total && p + 22 * (total - |acc|) + 15 <= 8 * |input|
    ensures LengthsFrom(cl, input, p, acc, total) != Err(UnexpectedEof)
    decreases total - |acc|
  {
    hide SymAt, Hi, Val, EncodeEntry;
    if |acc| < total {
      var s := SymAt(cl, input, p);
      var e := LookupAt(cl, Simple, input, p);
      if e.Ok? {
        var sym := Hi(e.value);
        var q := p + cl[s];
        if sym <= 15 {
          LengthsSettle(cl, input, q, acc + [sym], total);
        } else if sym <= 18 && !(sym == 16 && acc == []) {
          var n := Val(input, q, RepeatExtra(sym)) + RepeatBase(sym);
          if |acc| + n <= total {
            var what := if sym == 16 then acc[|acc| - 1] else 0;
            LengthsSettle(cl, input, q + RepeatExtra(sym), acc + Repeat(what, n), total);
          }
        }
      }
    }
  }

  lemma HeaderSettles(input: seq<u8>, p: nat)
    requires p + 8000 <= 8 * |input|
    ensures HeaderAt(input, p, false) != Err(UnexpectedEof)
  {
    hide CodeLengthCode, LengthsFrom, Fits, Kraft, Offset, Val;
    ValBound(input, p, 5);
    ValBound(input, p + 5, 5);
    ValBoundFour(input, p + 10);
    assert Pow2(5) == 32;
    var hlit, hdist, hclen := Val(input, p, 5) + 257, Val(input, p + 5, 5) + 1, Val(input, p + 10, 4) + 4;
    var cl := CodeLengthCode(input, p + 14, hclen);
    if Accepts(cl, false) { LengthsSettle(cl, input, p + 14 + 3 * hclen, [], hlit + hdist); }
  }

  // The symbols

  /** A step whose bits are all there is the same when more bytes come. */
  lemma StepStays(lit: seq<nat>, dist: seq<nat>, input: seq<u8>, other: seq<u8>, q: nat)
    requires F.IsCode(lit) && F.IsCode(dist)
    requires var s := StepAt(lit, dist, input, q);
      && s.Emit? && s.next <= 8 * |input| && s.next <= 8 * |other|
      && forall i: nat | q <= i < s.next :: StreamBit(input, i) == StreamBit(other, i)
    ensures StepAt(lit, dist, other, q) == StepAt(lit, dist, input, q)
  {
    hide StepAt, StreamBit, F.IsCode, F.CanWrite, F.SymbolBits, F.Meaning;
    var s := ReadSymbol(lit, dist, input, q);
    var bits := F.SymbolBits(lit, dist, s);
    forall i | 0 <= i < |bits| ensures StreamBit(other, q + i) == bits[i] {
      assert StreamBit(input, q + i) == bits[i];
    }
    SymbolRead(lit, dist, other, q, s);
  }

  function Falses(n: nat): (bits: F.Bits)
    ensures |bits| == n && forall i | 0 <= i < n :: !bits[i]
  {
    seq(n, _ => false)
  }

  /** k bits, the end of the block, and zeros up to six bytes and more behind it. */
  function EndBits(lit: seq<nat>, k: nat): (bits: F.Bits)
    requires F.HasCode(lit, 256)
    ensures |bits| % 8 == 0 && |bits| >= k + lit[256] + 48
  {
    Falses(k) + F.Huff(lit, 256) + Falses(48 + F.ToByte(k + lit[256]))
  }

  /** The end of the block where the input ends, or k bits on. */
  lemma EndPut(lit: seq<nat>, dist: seq<nat>, input: seq<u8>, k: nat)
    requires F.IsCode(lit) && F.HasCode(lit, 256)
    ensures var all := input + F.Packed(EndBits(lit, k));
      && StepAt(lit, dist, all, 8 * |input| + k) == EndOfBlock(8 * |input| + k + lit[256])
      && 8 * |input| + k + 48 <= 8 * |all|
      && Shows(all, 8 * |input|, Falses(k))
  {
    hide StepAt, Shows, F.IsCode, F.Packed, F.Huff, Falses;
    var bits := EndBits(lit, k);
    var more := F.Packed(bits);
    var all := input + more;
    assert all[|input|..|input| + |bits| / 8] == more;
    PackedShows(all, |input|, bits);
    var a, b, c := Falses(k), F.Huff(lit, 256), Falses(48 + F.ToByte(k + lit[256]));
    ShowsCat(all, 8 * |input|, a + b, c);
    ShowsCat(all, 8 * |input|, a, b);
    EndRead(lit, dist, all, 8 * |input| + k);
  }

  lemma BitsKept(input: seq<u8>, more: seq<u8>, i: nat)
    ensures i < 8 * |input| ==> StreamBit(input + more, i) == StreamBit(input, i)
    ensures i >= 8 * |input| ==> !StreamBit(input, i)
  {
    hide Bit;
  }

  lemma ZerosShow(input: seq<u8>, n: nat, i: nat)
    requires 8 * |input| <= i
    ensures !StreamBit(input + G.Zeros(n), i)
  {
    hide Bit;
    if i / 8 < |input + G.Zeros(n)| {
      assert (input + G.Zeros(n))[i / 8] == 0;
      BitZero(i % 8);
    }
  }

  /** From any symbol on, some more bytes lead to the end of the block or to a symbol that is refused. */
  lemma {:induction false} SymbolsSettle(lit: seq<nat>, dist: seq<nat>, input: seq<u8>, q: nat, out: seq<u8>)
      returns (more: seq<u8>)
    requires F.IsCode(lit) && F.IsCode(dist) && F.HasCode(lit, 256) && q <= 8 * |input|
    ensures |more| >= 6 && SymbolsFrom(lit, dist, input + more, q, out) != Err(UnexpectedEof)
    decreases 8 * |input| - q
  {
    hide StepAt, StreamBit, F.IsCode, F.HasCode, F.Packed, F.Huff, ApplyOne;
    var size := 8 * |input|;
    if q == size {
      EndPut(lit, dist, input, 0);
      more := F.Packed(EndBits(lit, 0));
      assert size + 0 == q;
    } else {
      more := G.Zeros(8);
      var zeros := input + more;
      StepAdvances(lit, dist, zeros, q);
      StepShortCodes(lit, dist, zeros, q);
      var s := StepAt(lit, dist, zeros, q);
      if s.Emit? && ApplyOne(out, s.token).Some? {
        var next := ApplyOne(out, s.token).value;
        if s.next <= size {
          more := SymbolsSettle(lit, dist, input, s.next, next);
          forall i: nat | q <= i < s.next ensures StreamBit(zeros, i) == StreamBit(input + more, i) {
            BitsKept(input, G.Zeros(8), i);
            BitsKept(input, more, i);
          }
        } else {
          var k := s.next - size;
          EndPut(lit, dist, input, k);
          more := F.Packed(EndBits(lit, k));
          forall i: nat | q <= i < s.next ensures StreamBit(zeros, i) == StreamBit(input + more, i) {
            BitsKept(input, G.Zeros(8), i);
            BitsKept(input, more, i);
            if i >= size {
              ZerosShow(input, 8, i);
              assert StreamBit(input + more, size + (i - size)) == Falses(k)[i - size];
            }
          }
        }
        StepStays(lit, dist, zeros, input + more, q);
        StepOn(lit, dist, input + more, q, out);
      }
    }
  }

  lemma StepShortCodes(lit: seq<nat>, dist: seq<nat>, input: seq<u8>, q: nat)
    requires F.IsCode(lit) && F.IsCode(dist)
    ensures var s := StepAt(lit, dist, input, q); !s.BadSymbol? ==> s.next <= q + 48
  {
    hide StepAt;
    AcceptsCodes(lit);
    AcceptsCodes(dist);
    StepShort(lit, dist, input, q);
  }

  lemma StepOn(lit: seq<nat>, dist: seq<nat>, input: seq<u8>, q: nat, out: seq<u8>)
    requires q + 48 <= 8 * |input|
    ensures var s := StepAt(lit, dist, input, q);
      s.Emit? && ApplyOne(out, s.token).Some? ==>
        SymbolsFrom(lit, dist, input, q, out)
          == SymbolsFrom(lit, dist, input, s.next, ApplyOne(out, s.token).value)
  {
    hide StepAt, ApplyOne;
    StepAdvances(lit, dist, input, q);
  }

  // The block

  /** Whatever has been read, some more bytes settle the block: it decodes, or it is invalid. */
  lemma MoreBytesSettle(input: seq<u8>, p: nat, out: seq<u8>) returns (more: seq<u8>)
    ensures StreamBlock(input + more, p, out) != Err(UnexpectedEof)
  {
    hide StreamBit, Val, HeaderAt, SymbolsFrom, FixedLit, FixedDist, F.IsCode, Apply, Aligned;
    more := G.Zeros(p + 0x1_2000);
    var longer := input + more;
    var btype := Val(longer, p + 1, 2);
    if btype == 0 {
      StoredSettles(longer, p, out);
    } else if btype == 1 {
      FixedAre();
      FixedHasEnd();
      var rest := SymbolsSettle(FixedLit(), FixedDist(), longer, p + 3, out);
      SameStart(longer, rest, p);
      more := more + rest;
      assert input + more == longer + rest;
    } else if btype == 2 {
      HeaderSettles(longer, p + 3);
      var h := HeaderAt(longer, p + 3, false);
      if h.Ok? {
        HeaderIsCodes(longer, p + 3);
        var rest := SymbolsSettle(h.value.lit, h.value.dist, longer, h.value.end, out);
        SameStart(longer, rest, p);
        PieceHeader(longer, longer + rest, 0, p + 3);
        more := more + rest;
        assert input + more == longer + rest;
      }
    }
  }

  lemma FixedHasEnd()
    ensures F.HasCode(FixedLit(), 256)
  {
    FixedSizes();
  }

  lemma HeaderIsCodes(input: seq<u8>, p: nat)
    requires HeaderAt(input, p, false).Ok?
    ensures var h := HeaderAt(input, p, false).value;
      F.IsCode(h.lit) && F.IsCode(h.dist) && F.HasCode(h.lit, 256) && h.end <= 8 * |input|
  {
    hide LengthsAt, Accepts, F.IsCode;
    var h := HeaderAt(input, p, false).value;
    AcceptsCodes(h.lit);
    AcceptsCodes(h.dist);
    HeaderInside(input, p);
  }

  lemma HeaderInside(input: seq<u8>, p: nat)
    requires HeaderAt(input, p, false).Ok?
    ensures HeaderAt(input, p, false).value.end <= 8 * |input|
  {
    hide HeaderAt, Shows, F.CodesBits, F.IsCodes;
    SafeInflate.HeadersAgree(input, p);
    var c := ReadCodes(input, p);
    ShowsInside(input, p, F.CodesBits(c));
  }

  /** The first three bits stay. */
  lemma SameStart(input: seq<u8>, more: seq<u8>, p: nat)
    requires p + 3 <= 8 * |input|
    ensures Val(input + more, p, 1) == Val(input, p, 1) && Val(input + more, p + 1, 2) == Val(input, p + 1, 2)
  {
    BitsKept(input, more, p);
    BitsKept(input, more, p + 1);
    BitsKept(input, more, p + 2);
    assert Val(input + more, p + 2, 1) == Val(input, p + 2, 1);
  }

  lemma StoredSettles(input: seq<u8>, p: nat, out: seq<u8>)
    requires p + 0x8_8000 <= 8 * |input| && Val(input, p + 1, 2) == 0
    ensures StreamBlock(input, p, out) != Err(UnexpectedEof)
  {
    hide Val, Apply, StoredFrom;
    var a := Aligned(p + 3);
    ValBound(input, a, 16);
    PowersToSixteen();
  }
}
