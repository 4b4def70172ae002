/** The byte decode loops: two literals per refill and the preloaded literal run of
    deflate/fast_inflate.rs, and the one-symbol loop of deflate/inflate.rs. They refill and look ahead
    differently and consume the same symbols. */
module Kernels {
  import opened Words
  import opened BitStream
  import opened Canonical
  import opened Tables
  import opened Huffman
  import opened Lz77
  import opened Deflate

  /** Bits the loops insist on before a symbol: 15 + 5 + 15 + 13. */
  const NEEDED: nat := 48

  /** A literal/length and a distance decoder, ready for use. */
  ghost predicate Ready(lit: HuffmanDecoder, dist: HuffmanDecoder)
    reads lit, lit.lut, dist, dist.lut
  {
    lit.Valid() && dist.Valid() && lit.encoding == LitLen && dist.encoding == Dist
  }

  // What the loops compute

  /** The symbols from p with `out` so far, as the loop takes them that decodes one symbol per turn
      (deflate/inflate.rs): 48 bits are insisted on before each. */
  ghost function SymbolsFrom(lit: seq<nat>, dist: seq<nat>, input: seq<u8>, p: nat, out: seq<u8>)
      : Result<(seq<u8>, nat)>
    decreases 8 * |input| - p
  {
    StepAdvances(lit, dist, input, p);
    if p + NEEDED > 8 * |input| then Err(UnexpectedEof)
    else match StepAt(lit, dist, input, p)
      case BadSymbol => Err(Invalid)
      case EndOfBlock(q) => Ok((out, q))
      case Emit(t, q) =>
        match ApplyOne(out, t)
        case None => Err(Invalid)
        case Some(next) => SymbolsFrom(lit, dist, input, q, next)
  }

  /** An answer against what it should be. */
  ghost predicate Replies(whole: Result<(seq<u8>, nat)>, r: Result<()>, out: seq<u8>, pos: nat) {
    match whole
    case Err(e) => r == Err(e)
    case Ok((o, q)) => r == Ok(()) && out == o && pos == q
  }

  /** What the symbol at p leads to. */
  lemma SymbolsCases(lit: seq<nat>, dist: seq<nat>, input: seq<u8>, p: nat, out: seq<u8>)
    requires p + NEEDED <= 8 * |input|
    ensures var s := SymAt(lit, input, p); var all := SymbolsFrom(lit, dist, input, p, out);
      && (s < 0 || s > 285 ==> all == Err(Invalid))
      && (0 <= s < 256 ==> all == SymbolsFrom(lit, dist, input, p + lit[s], out + [s]))
      && (s == 256 ==> all == Ok((out, p + lit[s])))
      && (257 <= s <= 285 ==>
            var q := p + lit[s] + LengthExtra(s);
            var length := LengthBase(s) + Val(input, p + lit[s], LengthExtra(s));
            match DistanceAt(dist, input, q)
            case None => all == Err(Invalid)
            case Some((distance, next)) =>
              match ApplyOne(out, Copy(length, distance))
              case None => all == Err(Invalid)
              case Some(o) => q <= next && all == SymbolsFrom(lit, dist, input, next, o))
  {
    hide Val, SymAt, LengthBase, LengthExtra, DistanceBase, DistanceExtra;
  }

  /** A literal can be taken without asking for its 48 bits: were they missing, the next symbol would miss
      them too. */
  lemma LiteralUnasked(lit: seq<nat>, dist: seq<nat>, input: seq<u8>, p: nat, out: seq<u8>)
    ensures var s := SymAt(lit, input, p);
      0 <= s < 256 ==>
        SymbolsFrom(lit, dist, input, p, out) == SymbolsFrom(lit, dist, input, p + lit[s], out + [s])
  {
    hide SymbolsFrom, SymAt;
    if p + NEEDED <= 8 * |input| {
      SymbolsCases(lit, dist, input, p, out);
    } else {
      SymbolsShort(lit, dist, input, p, out);
      var s := SymAt(lit, input, p);
      if 0 <= s < 256 { SymbolsShort(lit, dist, input, p + lit[s], out + [s]); }
    }
  }

  lemma SymbolsShort(lit: seq<nat>, dist: seq<nat>, input: seq<u8>, p: nat, out: seq<u8>)
    ensures p + NEEDED > 8 * |input| ==> SymbolsFrom(lit, dist, input, p, out) == Err(UnexpectedEof)
  {
  }

  /** The extra bits of a length entry. */
  method ReadLength(br: BitReader, entry: nat, ghost s: nat) returns (length: nat)
    requires br.Valid() && 257 <= s <= 285
    requires Hi(entry) % 0x200 == LengthBase(s) && Extra(entry) == LengthExtra(s)
    requires br.bits >= LengthExtra(s)
    modifies br
    ensures br.Valid()
    ensures br.bits == old(br.bits) - LengthExtra(s)
    ensures br.TellBit() == old(br.TellBit()) + LengthExtra(s)
    ensures length == LengthBase(s) + Val(br.input, old(br.TellBit()), LengthExtra(s))
  {
    hide Val, LengthBase, LengthExtra, DistanceBase, DistanceExtra;
    length := Hi(entry) % 0x200;
    var extra := Extra(entry);
    var v := br.PeekBuffered(extra);
    br.Consume(extra);
    length := length + v;
  }

  /** A distance symbol and its extra bits: at most 28 bits. */
  method ReadDistance(br: BitReader, dist: HuffmanDecoder) returns (r: Result<nat>)
    requires dist.Valid() && dist.encoding == Dist
    requires br.Valid() && 28 <= br.bits
    modifies br
    ensures br.Valid() && br.bits <= old(br.bits) && (r.Ok? ==> br.bytePos == old(br.bytePos))
    ensures match DistanceAt(dist.lengths, br.input, old(br.TellBit()))
      case None => r == Err(Invalid)
      case Some((distance, next)) => r == Ok(distance) && br.TellBit() == next
  {
    hide Val, Sym, Fits, ShortEntry, EncodeEntry, LongListed, LengthBase, LengthExtra, DistanceBase, DistanceExtra;
    ghost var d := SymAt(dist.lengths, br.input, br.TellBit());
    var e := dist.LookupBuffered(br);
    if e.Err? {
      return Err(Invalid);
    }
    EntryDist(d, dist.lengths[d]);
    if IsExceptional(e.value) {
      return Err(Invalid);
    }
    TableFacts(d);
    var extra := Extra(e.value);
    var v := br.PeekBuffered(extra);
    br.Consume(extra);
    r := Ok(Hi(e.value) + v);
  }

  /** What the flags and fields of a literal/length entry say about its symbol. */
  ghost predicate EntryMeans(e: nat, s: nat) {
    && (IsLiteral(e) <==> s < 256)
    && (s < 256 ==> Hi(e) % 0x100 == s)
    && (s >= 256 ==> (IsExceptional(e) <==> s == 256 || s > 285))
    && (s >= 256 && IsExceptional(e) ==> (Hi(e) == 0 <==> s == 256))
    && (257 <= s <= 285 ==> Hi(e) % 0x200 == LengthBase(s) && Extra(e) == LengthExtra(s))
    && (257 <= s <= 285 ==> LengthExtra(s) <= 5)
  }

  /** One literal/length symbol, with its entry read back. */
  method ReadEntry(br: BitReader, lit: HuffmanDecoder) returns (r: Result<nat>, ghost s: int)
    requires lit.Valid() && lit.encoding == LitLen
    requires br.Valid() && 15 <= br.bits
    modifies br
    ensures br.Valid() && br.bits <= old(br.bits)
    ensures s == SymAt(lit.lengths, br.input, old(br.TellBit()))
    ensures if s < 0 then r == Err(Invalid) else
      && r.Ok? && EntryMeans(r.value, s) && 1 <= lit.lengths[s] <= 15
      && br.TellBit() == old(br.TellBit()) + lit.lengths[s] && br.bits == old(br.bits) - lit.lengths[s]
  {
    hide Val, Sym, Fits, ShortEntry, EncodeEntry, LongListed, IsLiteral, IsExceptional, Hi, Extra, LengthBase,
      LengthExtra, DistanceBase, DistanceExtra;
    s := SymAt(lit.lengths, br.input, br.TellBit());
    r := lit.LookupBuffered(br);
    if s >= 0 {
      EntryLitLen(s, lit.lengths[s]);
      if 257 <= s <= 285 { TableFacts(s); }
    }
  }

  /** A literal of at most ten bits straight from the direct table: nothing else is taken. */
  method PeekLiteral(br: BitReader, lit: HuffmanDecoder) returns (found: bool, len: nat, b: u8)
    requires lit.Valid() && lit.encoding == LitLen
    requires br.Valid() && LUT_BITS <= br.bits
    ensures var s := SymAt(lit.lengths, br.input, br.TellBit());
      && (found <==> 0 <= s < 256 && lit.lengths[s] <= LUT_BITS)
      && (found ==> b == s && len == lit.lengths[s] > 0)
  {
    hide Val, Sym, Fits, ShortEntry, EncodeEntry, LongListed, IsLiteral, Hi, LengthBase, LengthExtra, DistanceBase,
      DistanceExtra;
    ghost var s := SymAt(lit.lengths, br.input, br.TellBit());
    var e := lit.PeekShort(br);
    len, b := LenOf(e), Hi(e) % 0x100;
    if s >= 0 { EntryLitLen(s, lit.lengths[s]); }
    found := len != 0 && IsLiteral(e);
  }

  /** The loop of `decode_compressed`: one refill, then one symbol, or two when both are literals. It
      computes what the loop with one symbol per turn does, errors included. */
  method DecodeCompressed(br: BitReader, lit: HuffmanDecoder, dist: HuffmanDecoder, out0: seq<u8>)
      returns (r: Result<()>, out: seq<u8>)
    requires Ready(lit, dist) && br.Valid() && br.bits <= 63
    modifies br
    ensures br.Valid() && (r.Ok? ==> br.bits <= 63)
    ensures Replies(SymbolsFrom(lit.lengths, dist.lengths, br.input, old(br.TellBit()), out0), r, out, br.TellBit())
  {
    hide Agrees, Val, Sym, SymAt, SymbolsFrom, Fits, ShortLengths, ShortEntry, LongListed, EncodeEntry, StepAt,
      IsLiteral, IsExceptional, Hi, Extra, EntryMeans, LengthBase, LengthExtra, DistanceBase, DistanceExtra;
    ghost var whole := SymbolsFrom(lit.lengths, dist.lengths, br.input, br.TellBit(), out0);
    out := out0;
    while true
      invariant br.Valid() && br.bits <= 63 && Ready(lit, dist)
      invariant SymbolsFrom(lit.lengths, dist.lengths, br.input, br.TellBit(), out) == whole
      decreases 8 * |br.input| - br.TellBit()
    {
      SymbolsShort(lit.lengths, dist.lengths, br.input, br.TellBit(), out);
      var ok := br.TopUp(NEEDED);
      if !ok {
        return Err(UnexpectedEof), out;
      }
      var done;
      done, r, out := DecodeOne(br, lit, dist, out, whole);
      if done {
        return;
      }
    }
  }

  /** One iteration after its refill. */
  method DecodeOne(br: BitReader, lit: HuffmanDecoder, dist: HuffmanDecoder, out1: seq<u8>,
                   ghost whole: Result<(seq<u8>, nat)>)
      returns (done: bool, r: Result<()>, out: seq<u8>)
    requires Ready(lit, dist) && br.Valid() && NEEDED <= br.bits <= 63
    requires SymbolsFrom(lit.lengths, dist.lengths, br.input, br.TellBit(), out1) == whole
    modifies br
    ensures br.Valid() && br.bits <= 63
    ensures !done ==> SymbolsFrom(lit.lengths, dist.lengths, br.input, br.TellBit(), out) == whole
    ensures !done ==> br.TellBit() > old(br.TellBit())
    ensures done ==> Replies(whole, r, out, br.TellBit())
  {
    hide Agrees, Val, Sym, SymAt, SymbolsFrom, Fits, ShortLengths, ShortEntry, LongListed, EncodeEntry,
      StepAt, IsLiteral, IsExceptional, Hi, Extra, DistanceAt, ApplyOne, LengthBase, LengthExtra, DistanceBase,
      DistanceExtra;
    SymbolsCases(lit.lengths, dist.lengths, br.input, br.TellBit(), out1);
    var e, s := ReadEntry(br, lit);
    if e.Err? {
      return true, Err(Invalid), out1;
    }
    if IsLiteral(e.value) {
      out := SecondLiteral(br, lit, dist.lengths, out1 + [Hi(e.value) % 0x100]);
      return false, Ok(()), out;
    }
    if IsExceptional(e.value) {
      return true, if Hi(e.value) == 0 then Ok(()) else Err(Invalid), out1;
    }
    var length := ReadLength(br, e.value, s);
    done, r, out := CopyMatch(br, dist, length, out1);
  }

  /** After a literal, a second one without a refill when the direct table has it; anything else is
      left for the next iteration. */
  method SecondLiteral(br: BitReader, lit: HuffmanDecoder, ghost dist: seq<nat>, out1: seq<u8>)
      returns (out: seq<u8>)
    requires lit.Valid() && lit.encoding == LitLen
    requires br.Valid() && LUT_BITS <= br.bits <= 63
    modifies br
    ensures br.Valid() && br.bits <= 63 && br.TellBit() >= old(br.TellBit())
    ensures SymbolsFrom(lit.lengths, dist, br.input, br.TellBit(), out)
         == SymbolsFrom(lit.lengths, dist, br.input, old(br.TellBit()), out1)
  {
    hide Agrees, Val, Sym, SymAt, SymbolsFrom, Fits, ShortLengths, ShortEntry, LongListed, StepAt,
      DistanceAt, LengthBase, LengthExtra, DistanceBase, DistanceExtra;
    LiteralUnasked(lit.lengths, dist, br.input, br.TellBit(), out1);
    var found, len, b := PeekLiteral(br, lit);
    out := out1;
    if found {
      br.Consume(len);
      out := out + [b];
    }
  }

  /** Distance, bounds check and copy. */
  method CopyMatch(br: BitReader, dist: HuffmanDecoder, length: nat, out1: seq<u8>)
      returns (done: bool, r: Result<()>, out: seq<u8>)
    requires dist.Valid() && dist.encoding == Dist
    requires br.Valid() && 28 <= br.bits
    modifies br
    ensures br.Valid() && br.bits <= old(br.bits) && (!done ==> br.bytePos == old(br.bytePos))
    ensures match DistanceAt(dist.lengths, br.input, old(br.TellBit()))
      case None => done && r == Err(Invalid)
      case Some((distance, next)) =>
        match ApplyOne(out1, Copy(length, distance))
        case None => done && r == Err(Invalid) && br.TellBit() == next
        case Some(o) => !done && out == o && br.TellBit() == next
  {
    hide Val, DistanceAt, LengthBase, LengthExtra, DistanceBase, DistanceExtra;
    var d := ReadDistance(br, dist);
    out := out1;
    if d.Err? {
      return true, Err(Invalid), out;
    }
    if d.value == 0 || d.value > |out| {
      return true, Err(Invalid), out;
    }
    out := CopyBack(out, d.value, length);
    done, r := false, Ok(());
  }

  // The preloaded literal run

  /** Bits below which the literal run refills: a short code and a length's extra bits. */
  const LIT_GUARD: nat := 15

  /** What `decode_compressed_preload` computes from bit p, with the bytes before `at` in the register: it
      refills before each turn, and within one only as its register runs low, so near the end of the input
      it can get further than the loop that asks before every symbol. */
  ghost function PreloadFrom(lit: seq<nat>, dist: seq<nat>, input: seq<u8>, p: nat, at: nat, out: seq<u8>)
      : Result<(seq<u8>, nat)>
    requires ShortLengths(lit) && ShortLengths(dist) && p <= 8 * at <= p + 63 && at <= |input|
    decreases 8 * |input| - p, 3
  {
    if p + NEEDED > 8 * |input| then Err(UnexpectedEof)
    else PreloadRun(lit, dist, input, p, LoadTo(|input|, p, at, NEEDED), out)
  }

  /** Literals of at most ten bits, refilling when fewer than 15 bits are left. */
  ghost function PreloadRun(lit: seq<nat>, dist: seq<nat>, input: seq<u8>, p: nat, at: nat, out: seq<u8>)
      : Result<(seq<u8>, nat)>
    requires ShortLengths(lit) && ShortLengths(dist) && p + LIT_GUARD <= 8 * at <= p + 63 && at <= |input|
    decreases 8 * |input| - p, 2
  {
    var s := SymAt(lit, input, p);
    if 0 <= s < 256 && lit[s] <= LUT_BITS then
      var q := p + lit[s];
      if q + LIT_GUARD <= 8 * at then PreloadRun(lit, dist, input, q, at, out + [s])
      else if q + NEEDED > 8 * |input| then Err(UnexpectedEof)
      else PreloadRun(lit, dist, input, q, LoadTo(|input|, q, at, NEEDED), out + [s])
    else PreloadOther(lit, dist, input, p, at, out)
  }

  /** The symbol the run stops at. */
  ghost function PreloadOther(lit: seq<nat>, dist: seq<nat>, input: seq<u8>, p: nat, at: nat, out: seq<u8>)
      : Result<(seq<u8>, nat)>
    requires ShortLengths(lit) && ShortLengths(dist) && p + LIT_GUARD <= 8 * at <= p + 63 && at <= |input|
    decreases 8 * |input| - p, 1
  {
    var s := SymAt(lit, input, p);
    if s < 0 || s > 285 then Err(Invalid)
    else if s < 256 then PreloadFrom(lit, dist, input, p + lit[s], at, out + [s])
    else if s == 256 then Ok((out, p + lit[s]))
    else PreloadMatch(lit, dist, input, p, at, out)
  }

  ghost function PreloadMatch(lit: seq<nat>, dist: seq<nat>, input: seq<u8>, p: nat, at: nat, out: seq<u8>)
      : Result<(seq<u8>, nat)>
    requires 257 <= SymAt(lit, input, p) <= 285
    requires ShortLengths(lit) && ShortLengths(dist) && p + LIT_GUARD <= 8 * at <= p + 63 && at <= |input|
    decreases 8 * |input| - p, 0
  {
    hide SymAt, Val, DistanceAt, ApplyOne, LengthBase, LengthExtra, MatchLoads;
    var s := SymAt(lit, input, p);
    var q := p + lit[s];
    var extra := LengthExtra(s);
    TableFacts(s);
    match MatchLoads(|input|, q, at, extra, lit[s] > LUT_BITS)
    case None => Err(UnexpectedEof)
    case Some(at') =>
      DistanceShort(dist, input, q + extra);
      match DistanceAt(dist, input, q + extra)
      case None => Err(Invalid)
      case Some((distance, next)) =>
        match ApplyOne(out, Copy(LengthBase(s) + Val(input, q, extra), distance))
        case None => Err(Invalid)
        case Some(o) => PreloadFrom(lit, dist, input, next, at', o)
  }

  /** The refills of a match whose code ends at q: after a long code one for the length's extra bits, if it
      has any, and one for the distance; after a short code the latter only when fewer than 28 bits are
      left. */
  function MatchLoads(size: nat, q: nat, at: nat, extra: nat, long: bool): (r: Option<nat>)
    requires q <= 8 * at <= q + 63 && at <= size && extra <= 5 && (!long ==> q + 5 <= 8 * at)
    ensures r.Some? ==> q + extra + 28 <= 8 * r.value <= q + extra + 63 && r.value <= size
    ensures r.None? ==> q + extra + NEEDED > 8 * size
  {
    if long && extra > 0 && q + NEEDED > 8 * size then None
    else
      var at1 := if long && extra > 0 then LoadTo(size, q, at, NEEDED) else at;
      if !long && q + extra + 28 <= 8 * at1 then Some(at1)
      else if q + extra + NEEDED > 8 * size then None
      else Some(LoadTo(size, q + extra, at1, NEEDED))
  }

  lemma DistanceShort(dist: seq<nat>, input: seq<u8>, p: nat)
    requires ShortLengths(dist)
    ensures var d := DistanceAt(dist, input, p); d.Some? ==> p < d.value.1 <= p + 28
  {
    hide Val, DistanceBase;
    var d := SymAt(dist, input, p);
    if 0 <= d <= 29 { TableFacts(d); }
  }

  /** `decode_compressed_preload`: literals of at most ten bits in a run that refills by itself, then
      one other symbol, with its own refills on the way. */
  method DecodeCompressedPreload(br: BitReader, lit: HuffmanDecoder, dist: HuffmanDecoder, out0: seq<u8>)
      returns (r: Result<()>, out: seq<u8>)
    requires Ready(lit, dist) && br.Valid() && br.bits <= 63
    modifies br
    ensures br.Valid() && (r.Ok? ==> br.bits <= 63)
    ensures Replies(PreloadFrom(lit.lengths, dist.lengths, br.input, old(br.TellBit()), old(br.bytePos), out0),
                    r, out, br.TellBit())
  {
    hide Agrees, Val, Sym, SymAt, PreloadRun, PreloadOther, Fits, ShortLengths, ShortEntry, LongListed, EncodeEntry,
      StepAt, LoadTo;
    ghost var whole := PreloadFrom(lit.lengths, dist.lengths, br.input, br.TellBit(), br.bytePos, out0);
    out := out0;
    while true
      invariant br.Valid() && br.bits <= 63 && Ready(lit, dist)
      invariant PreloadFrom(lit.lengths, dist.lengths, br.input, br.TellBit(), br.bytePos, out) == whole
      decreases 8 * |br.input| - br.TellBit()
    {
      var ok := br.TopUp(NEEDED);
      if !ok {
        return Err(UnexpectedEof), out;
      }
      ok, out := LiteralRun(br, lit, dist.lengths, out, whole);
      if !ok {
        return Err(UnexpectedEof), out;
      }
      var done;
      done, r, out := OtherSymbol(br, lit, dist, out, whole);
      if done {
        return;
      }
    }
  }

  /** The literal run: consume, store, and top up in line when the budget runs low. */
  method LiteralRun(br: BitReader, lit: HuffmanDecoder, ghost dist: seq<nat>, out1: seq<u8>,
                    ghost whole: Result<(seq<u8>, nat)>)
      returns (ok: bool, out: seq<u8>)
    requires lit.Valid() && lit.encoding == LitLen && ShortLengths(dist)
    requires br.Valid() && LIT_GUARD <= br.bits <= 63
    requires PreloadRun(lit.lengths, dist, br.input, br.TellBit(), br.bytePos, out1) == whole
    modifies br
    ensures br.Valid() && br.bits <= 63 && br.TellBit() >= old(br.TellBit())
    ensures ok ==>
      && br.bits >= LIT_GUARD
      && PreloadOther(lit.lengths, dist, br.input, br.TellBit(), br.bytePos, out) == whole
    ensures !ok ==> whole == Err(UnexpectedEof)
  {
    hide Agrees, Val, Sym, SymAt, PreloadFrom, PreloadOther, Fits, ShortLengths, ShortEntry, LongListed, StepAt,
      LoadTo;
    out := out1;
    var found, len, b := PeekLiteral(br, lit);
    ok := true;
    while found
      invariant br.Valid() && LIT_GUARD <= br.bits <= 63 && br.TellBit() >= old(br.TellBit())
      invariant lit.Valid() && lit.encoding == LitLen
      invariant PreloadRun(lit.lengths, dist, br.input, br.TellBit(), br.bytePos, out) == whole
      invariant var s := SymAt(lit.lengths, br.input, br.TellBit());
        && (found <==> 0 <= s < 256 && lit.lengths[s] <= LUT_BITS)
        && (found ==> b == s && len == lit.lengths[s] > 0)
      decreases 8 * |br.input| - br.TellBit()
    {
      br.Consume(len);
      out := out + [b];
      if br.bits < LIT_GUARD {
        ok := br.TopUp(NEEDED);
        if !ok {
          return;
        }
      }
      found, len, b := PeekLiteral(br, lit);
    }
  }

  /** The symbol after the run: from the direct table, or by the long codes when the table has none. */
  method OtherSymbol(br: BitReader, lit: HuffmanDecoder, dist: HuffmanDecoder, out1: seq<u8>,
                     ghost whole: Result<(seq<u8>, nat)>)
      returns (done: bool, r: Result<()>, out: seq<u8>)
    requires Ready(lit, dist) && br.Valid() && LIT_GUARD <= br.bits <= 63
    requires PreloadOther(lit.lengths, dist.lengths, br.input, br.TellBit(), br.bytePos, out1) == whole
    modifies br
    ensures br.Valid() && br.bits <= 63
    ensures !done ==>
      PreloadFrom(lit.lengths, dist.lengths, br.input, br.TellBit(), br.bytePos, out) == whole
    ensures !done ==> br.TellBit() > old(br.TellBit())
    ensures done ==> Replies(whole, r, out, br.TellBit())
  {
    hide Agrees, Val, Sym, SymAt, PreloadFrom, PreloadRun, PreloadMatch, Fits, ShortLengths, ShortEntry, LongListed,
      EncodeEntry, StepAt, IsLiteral, IsExceptional, Hi, Extra, DistanceAt, ApplyOne, LengthBase, LengthExtra,
      DistanceBase, DistanceExtra, LoadTo;
    ghost var p := br.TellBit();
    var peeked := lit.PeekShort(br);
    var e, s := ReadEntry(br, lit);
    if e.Err? {
      return true, Err(Invalid), out1;
    }
    if IsLiteral(e.value) {
      return false, Ok(()), out1 + [Hi(e.value) % 0x100];
    }
    if IsExceptional(e.value) {
      return true, if Hi(e.value) == 0 then Ok(()) else Err(Invalid), out1;
    }
    done, r, out := MatchWithRefills(br, dist, e.value, LenOf(peeked) == 0, lit.lengths, p, out1, whole);
  }

  /** Length, distance and copy. After a long code the length's extra bits are refilled for, and the
      distance always is; after a short one only when fewer than 28 bits are left. */
  method MatchWithRefills(br: BitReader, dist: HuffmanDecoder, entry: nat, long: bool, ghost lit: seq<nat>,
                          ghost p: nat, out1: seq<u8>, ghost whole: Result<(seq<u8>, nat)>)
      returns (done: bool, r: Result<()>, out: seq<u8>)
    requires dist.Valid() && dist.encoding == Dist && br.Valid() && br.bits <= 63 && ShortLengths(lit)
    requires var s := SymAt(lit, br.input, p); 257 <= s <= 285 && EntryMeans(entry, s)
    requires var len := lit[SymAt(lit, br.input, p)]; br.TellBit() == p + len && (long <==> len > LUT_BITS)
    requires p + LIT_GUARD <= 8 * br.bytePos <= p + 63
    requires PreloadMatch(lit, dist.lengths, br.input, p, br.bytePos, out1) == whole
    modifies br
    ensures br.Valid() && br.bits <= 63
    ensures !done ==> PreloadFrom(lit, dist.lengths, br.input, br.TellBit(), br.bytePos, out) == whole
    ensures !done ==> br.TellBit() >= old(br.TellBit())
    ensures done ==> Replies(whole, r, out, br.TellBit())
  {
    hide Agrees, Val, Sym, SymAt, PreloadFrom, PreloadRun, PreloadOther, Fits, ShortLengths, ShortEntry, LongListed,
      EncodeEntry, StepAt, EntryMeans, DistanceAt, ApplyOne, LengthBase, LengthExtra, DistanceBase, DistanceExtra,
      MatchLoads;
    ghost var s := SymAt(lit, br.input, p);
    TableFacts(s);
    DistanceShort(dist.lengths, br.input, br.TellBit() + LengthExtra(s));
    var ok, length := LengthWithRefills(br, entry, long, s);
    if !ok {
      return true, Err(UnexpectedEof), out1;
    }
    done, r, out := CopyMatch(br, dist, length, out1);
  }

  /** The length, with 28 bits left behind it for the distance. */
  method LengthWithRefills(br: BitReader, entry: nat, long: bool, ghost s: nat) returns (ok: bool, length: nat)
    requires br.Valid() && br.bits <= 63 && 257 <= s <= 285 && EntryMeans(entry, s) && LengthExtra(s) <= 5
    requires !long ==> br.bits >= 5
    modifies br
    ensures br.Valid() && br.bits <= 63
    ensures match MatchLoads(|br.input|, old(br.TellBit()), old(br.bytePos), LengthExtra(s), long)
      case None => !ok
      case Some(at) =>
        && ok && br.bytePos == at && br.TellBit() == old(br.TellBit()) + LengthExtra(s)
        && length == LengthBase(s) + Val(br.input, old(br.TellBit()), LengthExtra(s))
  {
    hide Agrees, Val, IsLiteral, IsExceptional, Hi, LengthBase, LengthExtra, DistanceBase, DistanceExtra, LoadTo;
    if long && Extra(entry) > 0 {
      ok := br.TopUp(NEEDED);
      if !ok {
        return false, 0;
      }
    }
    length := ReadLength(br, entry, s);
    if long || br.bits < 28 {
      ok := br.TopUp(NEEDED);
    } else {
      ok := true;
    }
  }

  // The loops against the run

  /** The loop with one symbol per turn succeeds exactly when the block is well formed, its distances stay
      inside the output, and 48 bits are there from its last symbol on. */
  lemma {:induction false} SymbolsExactly(lit: seq<nat>, dist: seq<nat>, input: seq<u8>, p: nat, out: seq<u8>)
    requires ShortLengths(lit) && ShortLengths(dist)
    ensures var run, r := RunFrom(lit, dist, input, p), SymbolsFrom(lit, dist, input, p, out);
      && (r.Ok? <==> run.end.Done? && Apply(out, run.tokens).Some?
                     && LastCode(lit, dist, input, p) + 48 <= 8 * |input|)
      && (r.Ok? ==> run.end == Done(r.value.1) && Apply(out, run.tokens) == Some(r.value.0))
      && (r == Err(Invalid) ==> run.end.Malformed? || Apply(out, run.tokens).None?)
    decreases 8 * |input| - p
  {
    hide StepAt, ApplyOne;
    StepAdvances(lit, dist, input, p);
    StepShort(lit, dist, input, p);
    if p + NEEDED <= 8 * |input| {
      var s := StepAt(lit, dist, input, p);
      if s.Emit? {
        var rest := RunFrom(lit, dist, input, s.next);
        assert ([s.token] + rest.tokens)[1..] == rest.tokens;
        var next := ApplyOne(out, s.token);
        if next.Some? { SymbolsExactly(lit, dist, input, s.next, next.value); }
      }
    }
  }

  /** A literal takes at most 15 bits and a match at most 48. */
  lemma StepShort(lit: seq<nat>, dist: seq<nat>, input: seq<u8>, p: nat)
    requires ShortLengths(lit) && ShortLengths(dist)
    ensures var s := StepAt(lit, dist, input, p); !s.BadSymbol? ==> s.next <= p + NEEDED
  {
    hide Val, LengthBase, DistanceBase, LengthExtra, DistanceExtra, SymAt;
    var s := SymAt(lit, input, p);
    if 257 <= s <= 285 {
      TableFacts(s);
      var q := p + lit[s] + LengthExtra(s);
      var d := SymAt(dist, input, q);
      if 0 <= d <= 29 { TableFacts(d); }
    }
  }

  /** A fair answer for the rest of a block at p: a success is the run's, an error is its error or the end
      of the input; and where the loop that asks before every symbol succeeds, it is the same. */
  ghost predicate Fair(w: Result<(seq<u8>, nat)>, lit: seq<nat>, dist: seq<nat>, input: seq<u8>, p: nat, out: seq<u8>)
  {
    var run := RunFrom(lit, dist, input, p);
    && (match w
        case Ok((o, q)) => run.end == Done(q) && Apply(out, run.tokens) == Some(o)
        case Err(Invalid) => run.end.Malformed? || Apply(out, run.tokens).None?
        case Err(UnexpectedEof) => true)
    && (SymbolsFrom(lit, dist, input, p, out).Ok? ==> w == SymbolsFrom(lit, dist, input, p, out))
  }

  /** What is fair after the symbol at p is fair before it. */
  lemma FairStep(w: Result<(seq<u8>, nat)>, lit: seq<nat>, dist: seq<nat>, input: seq<u8>, p: nat, out: seq<u8>)
    requires p < 8 * |input|
    ensures match StepAt(lit, dist, input, p)
      case BadSymbol => Fair(Err(Invalid), lit, dist, input, p, out)
      case EndOfBlock(q) => q <= 8 * |input| ==> Fair(Ok((out, q)), lit, dist, input, p, out)
      case Emit(t, q) => q <= 8 * |input| ==>
        match ApplyOne(out, t)
        case None => Fair(Err(Invalid), lit, dist, input, p, out)
        case Some(o) => Fair(w, lit, dist, input, q, o) ==> Fair(w, lit, dist, input, p, out)
  {
    hide StepAt, ApplyOne;
    StepAdvances(lit, dist, input, p);
    var s := StepAt(lit, dist, input, p);
    if s.Emit? && s.next <= 8 * |input| {
      var rest := RunFrom(lit, dist, input, s.next);
      assert ([s.token] + rest.tokens)[1..] == rest.tokens;
    }
  }

  lemma FairEnd(lit: seq<nat>, dist: seq<nat>, input: seq<u8>, p: nat, out: seq<u8>)
    requires !SymbolsFrom(lit, dist, input, p, out).Ok?
    ensures Fair(Err(UnexpectedEof), lit, dist, input, p, out)
  {
  }

  /** In terms of the symbol. */
  lemma FairCases(w: Result<(seq<u8>, nat)>, lit: seq<nat>, dist: seq<nat>, input: seq<u8>, p: nat, out: seq<u8>)
    requires p < 8 * |input|
    ensures var s := SymAt(lit, input, p);
      && (s < 0 || s > 285 ==> Fair(Err(Invalid), lit, dist, input, p, out))
      && (0 <= s < 256 && p + lit[s] <= 8 * |input| && Fair(w, lit, dist, input, p + lit[s], out + [s]) ==>
            Fair(w, lit, dist, input, p, out))
      && (s == 256 && p + lit[s] <= 8 * |input| ==> Fair(Ok((out, p + lit[s])), lit, dist, input, p, out))
      && (257 <= s <= 285 ==>
            match DistanceAt(dist, input, p + lit[s] + LengthExtra(s))
            case None => Fair(Err(Invalid), lit, dist, input, p, out)
            case Some((distance, next)) => next <= 8 * |input| ==>
              match ApplyOne(out, Copy(LengthBase(s) + Val(input, p + lit[s], LengthExtra(s)), distance))
              case None => Fair(Err(Invalid), lit, dist, input, p, out)
              case Some(o) => Fair(w, lit, dist, input, next, o) ==> Fair(w, lit, dist, input, p, out))
  {
    hide Fair, Val, SymAt, LengthBase, LengthExtra, DistanceBase, DistanceExtra;
    FairStep(w, lit, dist, input, p, out);
  }

  /** A match whose refill fails leaves no room for the symbol after it. */
  lemma MatchCannotEnd(lit: seq<nat>, dist: seq<nat>, input: seq<u8>, p: nat, out: seq<u8>)
    requires var s := SymAt(lit, input, p); 257 <= s <= 285 && p + lit[s] + LengthExtra(s) + NEEDED > 8 * |input|
    ensures !SymbolsFrom(lit, dist, input, p, out).Ok?
  {
    hide Val, SymAt, SymbolsFrom, LengthBase, LengthExtra, DistanceBase, DistanceExtra;
    SymbolsShort(lit, dist, input, p, out);
    if p + NEEDED <= 8 * |input| {
      SymbolsCases(lit, dist, input, p, out);
      var s := SymAt(lit, input, p);
      var d := DistanceAt(dist, input, p + lit[s] + LengthExtra(s));
      if d.Some? {
        var o := ApplyOne(out, Copy(LengthBase(s) + Val(input, p + lit[s], LengthExtra(s)), d.value.0));
        if o.Some? { SymbolsShort(lit, dist, input, d.value.1, o.value); }
      }
    }
  }

  /** The preloading loop answers fairly, wherever its register stands. */
  lemma {:induction false} PreloadIsFair(lit: seq<nat>, dist: seq<nat>, input: seq<u8>, p: nat, at: nat, out: seq<u8>)
    requires ShortLengths(lit) && ShortLengths(dist) && p <= 8 * at <= p + 63 && at <= |input|
    ensures Fair(PreloadFrom(lit, dist, input, p, at, out), lit, dist, input, p, out)
    decreases 8 * |input| - p, 3
  {
    hide Fair, PreloadRun, ShortLengths, LoadTo;
    if p + NEEDED > 8 * |input| {
      SymbolsShort(lit, dist, input, p, out);
      FairEnd(lit, dist, input, p, out);
    } else {
      PreloadRunIsFair(lit, dist, input, p, LoadTo(|input|, p, at, NEEDED), out);
    }
  }

  lemma {:induction false} PreloadRunIsFair(lit: seq<nat>, dist: seq<nat>, input: seq<u8>, p: nat, at: nat,
                                            out: seq<u8>)
    requires ShortLengths(lit) && ShortLengths(dist) && p + LIT_GUARD <= 8 * at <= p + 63 && at <= |input|
    ensures Fair(PreloadRun(lit, dist, input, p, at, out), lit, dist, input, p, out)
    decreases 8 * |input| - p, 2
  {
    hide Fair, PreloadOther, ShortLengths, SymAt, LoadTo;
    var s := SymAt(lit, input, p);
    if 0 <= s < 256 && lit[s] <= LUT_BITS {
      var q := p + lit[s];
      if q + LIT_GUARD <= 8 * at {
        PreloadRunIsFair(lit, dist, input, q, at, out + [s]);
      } else if q + NEEDED > 8 * |input| {
        SymbolsShort(lit, dist, input, q, out + [s]);
        FairEnd(lit, dist, input, q, out + [s]);
      } else {
        PreloadRunIsFair(lit, dist, input, q, LoadTo(|input|, q, at, NEEDED), out + [s]);
      }
      FairCases(PreloadRun(lit, dist, input, p, at, out), lit, dist, input, p, out);
    } else {
      PreloadOtherIsFair(lit, dist, input, p, at, out);
    }
  }

  lemma {:induction false} PreloadOtherIsFair(lit: seq<nat>, dist: seq<nat>, input: seq<u8>, p: nat, at: nat,
                                              out: seq<u8>)
    requires ShortLengths(lit) && ShortLengths(dist) && p + LIT_GUARD <= 8 * at <= p + 63 && at <= |input|
    ensures Fair(PreloadOther(lit, dist, input, p, at, out), lit, dist, input, p, out)
    decreases 8 * |input| - p, 1
  {
    hide Fair, PreloadFrom, PreloadMatch, SymAt;
    var s := SymAt(lit, input, p);
    if 0 <= s < 256 {
      PreloadIsFair(lit, dist, input, p + lit[s], at, out + [s]);
    } else if 257 <= s <= 285 {
      PreloadMatchIsFair(lit, dist, input, p, at, out);
    }
    FairCases(PreloadOther(lit, dist, input, p, at, out), lit, dist, input, p, out);
  }

  lemma {:induction false} PreloadMatchIsFair(lit: seq<nat>, dist: seq<nat>, input: seq<u8>, p: nat, at: nat,
                                              out: seq<u8>)
    requires 257 <= SymAt(lit, input, p) <= 285
    requires ShortLengths(lit) && ShortLengths(dist) && p + LIT_GUARD <= 8 * at <= p + 63 && at <= |input|
    ensures Fair(PreloadMatch(lit, dist, input, p, at, out), lit, dist, input, p, out)
    decreases 8 * |input| - p, 0
  {
    hide Fair, PreloadFrom, SymAt, Val, DistanceAt, ApplyOne, LengthBase, LengthExtra, MatchLoads;
    var s := SymAt(lit, input, p);
    var q := p + lit[s] + LengthExtra(s);
    TableFacts(s);
    var loads := MatchLoads(|input|, p + lit[s], at, LengthExtra(s), lit[s] > LUT_BITS);
    if loads.None? {
      MatchCannotEnd(lit, dist, input, p, out);
      FairEnd(lit, dist, input, p, out);
    } else {
      DistanceShort(dist, input, q);
      var d := DistanceAt(dist, input, q);
      if d.Some? {
        var o := ApplyOne(out, Copy(LengthBase(s) + Val(input, p + lit[s], LengthExtra(s)), d.value.0));
        if o.Some? { PreloadIsFair(lit, dist, input, d.value.1, loads.value, o.value); }
      }
      FairCases(PreloadMatch(lit, dist, input, p, at, out), lit, dist, input, p, out);
    }
  }
}
