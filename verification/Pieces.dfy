/** Decoding from a buffered piece of the stream (lib.rs): an answer other than "end of input" does not
    depend on what follows the piece or on what was drained before it. */
module Pieces {
  import opened Words
  import opened BitStream
  import opened Canonical
  import opened Tables
  import opened Huffman
  import opened Lz77
  import opened Deflate
  import opened Kernels
  import opened Blocks
  import opened Stream

  /** `buf` is the stretch of `whole` from byte k. */
  ghost predicate Piece(buf: seq<u8>, whole: seq<u8>, k: nat) {
    k + |buf| <= |whole| && buf == whole[k..k + |buf|]
  }

  /** The first q bits of the piece decide: they are all there, or nothing follows the piece. */
  predicate Enough(buf: seq<u8>, whole: seq<u8>, k: nat, q: nat) {
    q <= 8 * |buf| || k + |buf| == |whole|
  }

  lemma PieceBit(buf: seq<u8>, whole: seq<u8>, k: nat, q: nat)
    requires Piece(buf, whole, k) && Enough(buf, whole, k, q + 1)
    ensures StreamBit(buf, q) == StreamBit(whole, 8 * k + q)
  {
    if q / 8 < |buf| { assert buf[q / 8] == whole[k + q / 8]; }
  }

  lemma {:induction false} PieceVal(buf: seq<u8>, whole: seq<u8>, k: nat, p: nat, n: nat)
    requires Piece(buf, whole, k) && Enough(buf, whole, k, p + n)
    ensures Val(buf, p, n) == Val(whole, 8 * k + p, n)
    decreases n
  {
    hide StreamBit;
    if n > 0 {
      PieceBit(buf, whole, k, p);
      PieceVal(buf, whole, k, p + 1, n - 1);
      assert 8 * k + (p + 1) == 8 * k + p + 1;
    }
  }

  lemma PieceSym(lengths: seq<nat>, buf: seq<u8>, whole: seq<u8>, k: nat, p: nat)
    requires Piece(buf, whole, k) && Enough(buf, whole, k, p + 15)
    ensures SymAt(lengths, buf, p) == SymAt(lengths, whole, 8 * k + p)
  {
    PieceVal(buf, whole, k, p, 15);
  }

  /** A code of at most ten bits is settled by ten bits. */
  lemma PieceShortSym(lengths: seq<nat>, buf: seq<u8>, whole: seq<u8>, k: nat, p: nat)
    requires Piece(buf, whole, k) && Enough(buf, whole, k, p + LUT_BITS)
    requires var s := SymAt(lengths, buf, p); s >= 0 && lengths[s] <= LUT_BITS
    ensures SymAt(lengths, whole, 8 * k + p) == SymAt(lengths, buf, p)
  {
    hide Val;
    var s := SymAt(lengths, buf, p);
    PieceVal(buf, whole, k, p, lengths[s]);
    LowVal(buf, p, 15, lengths[s]);
    LowVal(whole, 8 * k + p, 15, lengths[s]);
    SameStart(lengths, s, Val(buf, p, 15), Val(whole, 8 * k + p, 15));
  }

  /** What a header symbol decodes to on the piece, it decodes to on the whole. */
  lemma PieceLookup(lengths: seq<nat>, encoding: Encoding, buf: seq<u8>, whole: seq<u8>, k: nat, p: nat)
    requires Piece(buf, whole, k)
    ensures LookupAt(lengths, encoding, buf, p).Ok? ==> SymAt(lengths, buf, p) >= 0
    ensures var r := LookupAt(lengths, encoding, buf, p);
      r != Err(UnexpectedEof) || k + |buf| == |whole| ==>
        && LookupAt(lengths, encoding, whole, 8 * k + p) == r
        && (r.Ok? ==> SymAt(lengths, whole, 8 * k + p) == SymAt(lengths, buf, p))
  {
    hide SymAt, EncodeEntry;
    var s := SymAt(lengths, buf, p);
    if Enough(buf, whole, k, p + 15) {
      PieceSym(lengths, buf, whole, k, p);
    } else if s >= 0 && lengths[s] <= LUT_BITS && p + LUT_BITS <= 8 * |buf| {
      PieceShortSym(lengths, buf, whole, k, p);
    }
  }

  // Symbols

  lemma PieceDistance(dist: seq<nat>, buf: seq<u8>, whole: seq<u8>, k: nat, p: nat)
    requires ShortLengths(dist) && Piece(buf, whole, k) && Enough(buf, whole, k, p + 28)
    ensures DistanceAt(dist, whole, 8 * k + p) ==
      match DistanceAt(dist, buf, p) { case None => None case Some((d, q)) => Some((d, 8 * k + q)) }
  {
    hide SymAt, Val, DistanceBase, DistanceExtra;
    PieceSym(dist, buf, whole, k, p);
    var d := SymAt(dist, buf, p);
    if 0 <= d <= 29 {
      TableFacts(d);
      PieceVal(buf, whole, k, p + dist[d], DistanceExtra(d));
      assert 8 * k + (p + dist[d]) == 8 * k + p + dist[d];
    }
  }

  function ShiftStep(s: Step, n: nat): Step {
    match s
    case Emit(t, q) => Emit(t, n + q)
    case EndOfBlock(q) => EndOfBlock(n + q)
    case BadSymbol => BadSymbol
  }

  lemma PieceStep(lit: seq<nat>, dist: seq<nat>, buf: seq<u8>, whole: seq<u8>, k: nat, p: nat)
    requires ShortLengths(lit) && ShortLengths(dist)
    requires Piece(buf, whole, k) && Enough(buf, whole, k, p + NEEDED)
    ensures StepAt(lit, dist, whole, 8 * k + p) == ShiftStep(StepAt(lit, dist, buf, p), 8 * k)
  {
    hide SymAt, Val, DistanceAt, LengthBase, LengthExtra;
    PieceSym(lit, buf, whole, k, p);
    var s := SymAt(lit, buf, p);
    if 257 <= s <= 285 {
      TableFacts(s);
      var q := p + lit[s];
      PieceVal(buf, whole, k, q, LengthExtra(s));
      PieceDistance(dist, buf, whole, k, q + LengthExtra(s));
      assert 8 * k + q == 8 * k + p + lit[s];
      assert 8 * k + (q + LengthExtra(s)) == 8 * k + q + LengthExtra(s);
    }
  }

  /** The same answer, with positions counted from the start of the whole. */
  function ShiftRun(r: Result<(seq<u8>, nat)>, n: nat): Result<(seq<u8>, nat)> {
    match r
    case Err(e) => Err(e)
    case Ok((out, q)) => Ok((out, n + q))
  }

  lemma {:induction false} PieceSymbols(lit: seq<nat>, dist: seq<nat>, buf: seq<u8>, whole: seq<u8>, k: nat, p: nat,
                                        out: seq<u8>)
    requires ShortLengths(lit) && ShortLengths(dist) && Piece(buf, whole, k)
    ensures var r := SymbolsFrom(lit, dist, buf, p, out);
      r != Err(UnexpectedEof) || k + |buf| == |whole| ==>
        SymbolsFrom(lit, dist, whole, 8 * k + p, out) == ShiftRun(r, 8 * k)
    decreases 8 * |buf| - p
  {
    hide StepAt, ApplyOne;
    StepAdvances(lit, dist, buf, p);
    if p + NEEDED <= 8 * |buf| {
      PieceStep(lit, dist, buf, whole, k, p);
      var s := StepAt(lit, dist, buf, p);
      if s.Emit? && ApplyOne(out, s.token).Some? {
        PieceSymbols(lit, dist, buf, whole, k, s.next, ApplyOne(out, s.token).value);
      }
    }
  }

  // Headers

  lemma {:induction false} PieceCodeLengths(buf: seq<u8>, whole: seq<u8>, k: nat, p: nat, n: nat)
    requires n <= 19 && Piece(buf, whole, k) && Enough(buf, whole, k, p + 3 * n)
    ensures CodeLengthCode(whole, 8 * k + p, n) == CodeLengthCode(buf, p, n)
    decreases n
  {
    hide Val;
    if n > 0 {
      PieceCodeLengths(buf, whole, k, p, n - 1);
      PieceVal(buf, whole, k, p + 3 * (n - 1), 3);
      assert 8 * k + (p + 3 * (n - 1)) == 8 * k + p + 3 * (n - 1);
    }
  }

  function ShiftLengths(r: Result<(seq<nat>, nat)>, n: nat): Result<(seq<nat>, nat)> {
    match r
    case Err(e) => Err(e)
    case Ok((lengths, q)) => Ok((lengths, n + q))
  }

  lemma {:induction false} PieceLengths(cl: seq<nat>, buf: seq<u8>, whole: seq<u8>, k: nat, p: nat, acc: seq<nat>,
                                        total: nat)
    requires |acc| <= total && Piece(buf, whole, k)
    ensures var r := LengthsFrom(cl, buf, p, acc, total);
      r != Err(UnexpectedEof) || k + |buf| == |whole| ==>
        LengthsFrom(cl, whole, 8 * k + p, acc, total) == ShiftLengths(r, 8 * k)
    decreases total - |acc|
  {
    hide LookupAt, SymAt, Val, Repeat, RepeatExtra, RepeatBase, Hi;
    var r := LengthsFrom(cl, buf, p, acc, total);
    if |acc| < total && (r != Err(UnexpectedEof) || k + |buf| == |whole|) {
      PieceLookup(cl, Simple, buf, whole, k, p);
      var e := LookupAt(cl, Simple, buf, p);
      if e.Ok? {
        var q := p + cl[SymAt(cl, buf, p)];
        var sym := Hi(e.value);
        assert 8 * k + q == 8 * k + p + cl[SymAt(cl, whole, 8 * k + p)];
        if sym <= 15 {
          PieceLengths(cl, buf, whole, k, q, acc + [sym], total);
        } else if sym <= 18 && !(sym == 16 && acc == []) {
          var extra := RepeatExtra(sym);
          if Enough(buf, whole, k, q + extra) {
            PieceVal(buf, whole, k, q, extra);
            var n := Val(buf, q, extra) + RepeatBase(sym);
            if |acc| + n <= total && q + extra <= 8 * |buf| {
              PieceLengths(cl, buf, whole, k, q + extra,
                           acc + Repeat(if sym == 16 then acc[|acc| - 1] else 0, n), total);
            }
          }
        }
      }
    }
  }

  function ShiftAll(r: Result<(seq<nat>, nat, nat)>, n: nat): Result<(seq<nat>, nat, nat)> {
    match r
    case Err(e) => Err(e)
    case Ok((lengths, hlit, q)) => Ok((lengths, hlit, n + q))
  }

  lemma PieceAllLengths(buf: seq<u8>, whole: seq<u8>, k: nat, p: nat)
    requires Piece(buf, whole, k)
    ensures var r := LengthsAt(buf, p, false);
      r != Err(UnexpectedEof) || k + |buf| == |whole| ==>
        LengthsAt(whole, 8 * k + p, false) == ShiftAll(r, 8 * k)
  {
    hide Val, CodeLengthCode, LengthsFrom, Accepts;
    if Enough(buf, whole, k, p + 14) {
      PieceVal(buf, whole, k, p, 5);
      PieceVal(buf, whole, k, p + 5, 5);
      PieceVal(buf, whole, k, p + 10, 4);
      assert 8 * k + (p + 5) == 8 * k + p + 5 && 8 * k + (p + 10) == 8 * k + p + 10;
      var hclen := Val(buf, p + 10, 4) + 4;
      ValBoundFour(buf, p + 10);
      if Enough(buf, whole, k, p + 14 + 3 * hclen) {
        PieceCodeLengths(buf, whole, k, p + 14, hclen);
        assert 8 * k + (p + 14) == 8 * k + p + 14;
        var total := Val(buf, p, 5) + 257 + Val(buf, p + 5, 5) + 1;
        PieceLengths(CodeLengthCode(buf, p + 14, hclen), buf, whole, k, p + 14 + 3 * hclen, [], total);
        assert 8 * k + (p + 14 + 3 * hclen) == 8 * k + p + 14 + 3 * hclen;
      }
    }
  }

  function ShiftHeader(r: Result<Header>, n: nat): Result<Header> {
    match r
    case Err(e) => Err(e)
    case Ok(h) => Ok(h.(end := n + h.end))
  }

  lemma PieceHeader(buf: seq<u8>, whole: seq<u8>, k: nat, p: nat)
    requires Piece(buf, whole, k)
    ensures var r := HeaderAt(buf, p, false);
      r != Err(UnexpectedEof) || k + |buf| == |whole| ==>
        HeaderAt(whole, 8 * k + p, false) == ShiftHeader(r, 8 * k)
  {
    hide LengthsAt, Accepts;
    PieceAllLengths(buf, whole, k, p);
  }

  // Blocks

  lemma {:induction false} PieceStoredBytes(buf: seq<u8>, whole: seq<u8>, k: nat, p: nat, n: nat)
    requires Piece(buf, whole, k) && p + 8 * n <= 8 * |buf|
    ensures StoredFrom(whole, 8 * k + p, n) == StoredFrom(buf, p, n)
    decreases n
  {
    hide Val;
    if n > 0 {
      PieceVal(buf, whole, k, p, 8);
      PieceStoredBytes(buf, whole, k, p + 8, n - 1);
      assert 8 * k + (p + 8) == 8 * k + p + 8;
    }
  }

  lemma PieceStored(buf: seq<u8>, whole: seq<u8>, k: nat, a: nat, out: seq<u8>)
    requires Piece(buf, whole, k)
    ensures var r := StreamStored(buf, a, out);
      r != Err(UnexpectedEof) || k + |buf| == |whole| ==>
        StreamStored(whole, 8 * k + a, out) == ShiftRun(r, 8 * k)
  {
    hide Val, StoredFrom, Apply;
    if Enough(buf, whole, k, a + 32) {
      PieceVal(buf, whole, k, a, 16);
      PieceVal(buf, whole, k, a + 16, 16);
      assert 8 * k + (a + 16) == 8 * k + a + 16 && 8 * k + (a + 32) == 8 * k + a + 32;
      var len := Val(buf, a, 16);
      if a + 32 + 8 * len <= 8 * |buf| { PieceStoredBytes(buf, whole, k, a + 32, len); }
    }
  }

  function ShiftBlock(r: Result<(bool, seq<u8>, nat)>, n: nat): Result<(bool, seq<u8>, nat)> {
    match r
    case Err(e) => Err(e)
    case Ok((final, out, q)) => Ok((final, out, n + q))
  }

  /** A block decode on a buffered piece that succeeds, or finds the stream invalid, answers the same on
      the whole stream; and so does any answer when nothing follows the piece. */
  lemma PieceBlock(buf: seq<u8>, whole: seq<u8>, k: nat, p: nat, out: seq<u8>)
    requires Piece(buf, whole, k)
    ensures var r := StreamBlock(buf, p, out);
      r != Err(UnexpectedEof) || k + |buf| == |whole| ==>
        StreamBlock(whole, 8 * k + p, out) == ShiftBlock(r, 8 * k)
  {
    hide Val, HeaderAt, SymbolsFrom, StreamStored, FixedLit, FixedDist, ShortLengths, Fits;
    if Enough(buf, whole, k, p + 3) {
      PieceVal(buf, whole, k, p, 1);
      PieceVal(buf, whole, k, p + 1, 2);
      assert 8 * k + (p + 1) == 8 * k + p + 1 && 8 * k + (p + 3) == 8 * k + p + 3;
      PieceStored(buf, whole, k, Aligned(p + 3), out);
      assert Aligned(8 * k + (p + 3)) == 8 * k + Aligned(p + 3);
      FixedFit();
      PieceSymbols(FixedLit(), FixedDist(), buf, whole, k, p + 3, out);
      PieceHeader(buf, whole, k, p + 3);
      HeaderAdvances(buf, p + 3, false);
      var h := HeaderAt(buf, p + 3, false);
      if h.Ok? { PieceSymbols(h.value.lit, h.value.dist, buf, whole, k, h.value.end, out); }
    }
  }
}
