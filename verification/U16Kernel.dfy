/** The symbol loop over the 16-bit window (`decode_compressed_u16`, deflate/fast_inflate.rs). */
module U16Kernel {
  import opened Words
  import opened BitStream
  import opened Canonical
  import opened Tables
  import opened Huffman
  import opened Lz77
  import opened Deflate
  import opened Kernels
  import opened Speculative
  import opened U16Window

  // What the loop computes

  /** The rest of a block from bit p, with the bytes before `at` in the register and `cur` cells in the
      window: a refill and perhaps a flush, then a turn. */
  ghost function CellsFrom(lit: seq<nat>, dist: seq<nat>, input: seq<u8>, p: nat, at: nat, cur: nat,
                           cells: seq<Cell>): Result<(seq<Cell>, nat)>
    requires ShortLengths(lit) && ShortLengths(dist) && p <= 8 * at <= p + 63 && at <= |input|
    decreases 8 * |input| - p, 2
  {
    if p + NEEDED > 8 * |input| then Err(UnexpectedEof)
    else if SymAt(lit, input, p) < 0 then Err(Invalid)
    else
      var cur' := if cur >= U16_FLUSH_AT then U16_WINDOW else cur;
      CellsSymbol(lit, dist, input, p, LoadTo(|input|, p, at, NEEDED), cur', cells)
  }

  /** The symbol at p in hand. After a literal the next one is taken from the direct table, until bits or
      room get short or the table has none. */
  ghost function CellsSymbol(lit: seq<nat>, dist: seq<nat>, input: seq<u8>, p: nat, at: nat, cur: nat,
                             cells: seq<Cell>): Result<(seq<Cell>, nat)>
    requires ShortLengths(lit) && ShortLengths(dist) && SymAt(lit, input, p) >= 0
    requires p + lit[SymAt(lit, input, p)] <= 8 * at <= p + 63 && at <= |input|
    decreases 8 * |input| - p, 1
  {
    var s := SymAt(lit, input, p);
    var q := p + lit[s];
    if s < 256 then
      var n := SymAt(lit, input, q);
      if 8 * at < q + LIT_GUARD || cur + 1 >= U16_FLUSH_AT || n < 0 || lit[n] > LUT_BITS
      then CellsFrom(lit, dist, input, q, at, cur + 1, cells + [Byte(s)])
      else CellsSymbol(lit, dist, input, q, at, cur + 1, cells + [Byte(s)])
    else if s == 256 then Ok((cells, q))
    else if s > 285 then Err(Invalid)
    else CellsMatch(lit, dist, input, p, at, cur, cells)
  }

  /** A match, refilled for when fewer than its 33 bits are left. */
  ghost function CellsMatch(lit: seq<nat>, dist: seq<nat>, input: seq<u8>, p: nat, at: nat, cur: nat,
                            cells: seq<Cell>): Result<(seq<Cell>, nat)>
    requires ShortLengths(lit) && ShortLengths(dist) && 257 <= SymAt(lit, input, p) <= 285
    requires p + lit[SymAt(lit, input, p)] <= 8 * at <= p + 63 && at <= |input|
    decreases 8 * |input| - p, 0
  {
    hide SymAt, StepAt, BlindCopy, MatchLoad;
    MatchNext(lit, dist, input, p);
    match MatchLoad(|input|, p + lit[SymAt(lit, input, p)], at)
    case None => Err(UnexpectedEof)
    case Some(at') =>
      match StepAt(lit, dist, input, p)
      case Emit(Copy(length, distance), next) =>
        CellsFrom(lit, dist, input, next, at', cur + length, BlindCopy(cells, distance, length))
      case _ => Err(Invalid)
  }

  lemma MatchNext(lit: seq<nat>, dist: seq<nat>, input: seq<u8>, p: nat)
    requires ShortLengths(dist) && 257 <= SymAt(lit, input, p) <= 285
    ensures var s := StepAt(lit, dist, input, p);
      s.Emit? ==> s.token.Copy? && ValidToken(s.token) && p < s.next <= p + lit[SymAt(lit, input, p)] + 33
  {
    hide Val, SymAt, LengthBase, LengthExtra, DistanceAt, ValidToken;
    var s := SymAt(lit, input, p);
    TableFacts(s);
    DistanceShort(dist, input, p + lit[s] + LengthExtra(s));
    StepValid(lit, dist, input, p);
    StepAdvances(lit, dist, input, p);
  }

  /** The refill of a match whose code ends at q. */
  function MatchLoad(size: nat, q: nat, at: nat): (r: Option<nat>)
    requires q <= 8 * at <= q + 63 && at <= size
    ensures r.Some? ==> q + 33 <= 8 * r.value <= q + 63 && r.value <= size
    ensures r.None? ==> q + NEEDED > 8 * size
  {
    if q + 33 <= 8 * at then Some(at)
    else if q + NEEDED > 8 * size then None
    else Some(LoadTo(size, q, at, NEEDED))
  }

  /** An answer against what it should be. */
  ghost predicate RepliesCells(whole: Result<(seq<Cell>, nat)>, r: Result<()>, cells: seq<Cell>, pos: nat) {
    match whole
    case Err(e) => r == Err(e)
    case Ok((c, q)) => r == Ok(()) && cells == c && pos == q
  }

  /** `decode_compressed_u16`: refill and flush at the top of the loop, literals in a run that bails
      out when bits or room get short, then one other symbol. */
  method DecodeCompressedU16(br: BitReader, w: Window, lit: HuffmanDecoder, dist: HuffmanDecoder)
      returns (r: Result<()>)
    requires Ready(lit, dist) && br.Valid() && br.bits <= 63 && w.Valid()
    modifies br, w, w.scratch, w.chunk
    ensures br.Valid() && (r.Ok? ==> br.bits <= 63)
    ensures w.Valid() && w.start == old(w.start)
    ensures w.chunk.cells[..w.start] == old(w.chunk.cells[..w.start])
    ensures RepliesCells(CellsFrom(lit.lengths, dist.lengths, br.input, old(br.TellBit()), old(br.bytePos), old(w.cur),
                                   old(w.History())), r, w.History(), br.TellBit())
  {
    hide Agrees, Val, Sym, SymAt, Fits, ShortLengths, ShortEntry, LongListed, EncodeEntry, CellsSymbol, LoadTo,
      IsLiteral, IsExceptional, Hi, Extra, LengthBase, LengthExtra, DistanceBase, DistanceExtra;
    ghost var whole := CellsFrom(lit.lengths, dist.lengths, br.input, br.TellBit(), br.bytePos, w.cur, w.History());
    while true
      invariant br.Valid() && br.bits <= 63 && Ready(lit, dist)
      invariant w.Valid() && w.start == old(w.start)
      invariant w.chunk.cells[..w.start] == old(w.chunk.cells[..w.start])
      invariant CellsFrom(lit.lengths, dist.lengths, br.input, br.TellBit(), br.bytePos, w.cur, w.History()) == whole
      decreases 8 * |br.input| - br.TellBit()
    {
      var ok := br.TopUp(NEEDED);
      if !ok {
        return Err(UnexpectedEof);
      }
      if w.cur >= U16_FLUSH_AT {
        w.Flush();
      }
      var done;
      done, r := DecodeIteration(br, w, lit, dist, whole);
      if done {
        return;
      }
    }
  }

  /** The turn's symbol and what follows from it. */
  ghost function CellsTurn(lit: seq<nat>, dist: seq<nat>, input: seq<u8>, p: nat, at: nat, cur: nat,
                           cells: seq<Cell>): Result<(seq<Cell>, nat)>
    requires ShortLengths(lit) && ShortLengths(dist) && p + NEEDED <= 8 * at <= p + 63 && at <= |input|
  {
    if SymAt(lit, input, p) < 0 then Err(Invalid) else CellsSymbol(lit, dist, input, p, at, cur, cells)
  }

  /** One iteration after refill and flush. */
  method DecodeIteration(br: BitReader, w: Window, lit: HuffmanDecoder, dist: HuffmanDecoder,
                         ghost whole: Result<(seq<Cell>, nat)>)
      returns (done: bool, r: Result<()>)
    requires Ready(lit, dist) && br.Valid() && NEEDED <= br.bits <= 63
    requires w.Valid() && w.cur < U16_FLUSH_AT
    requires CellsTurn(lit.lengths, dist.lengths, br.input, br.TellBit(), br.bytePos, w.cur, w.History()) == whole
    modifies br, w`cur, w.scratch
    ensures br.Valid() && br.bits <= 63 && w.Valid()
    ensures !done ==> br.TellBit() > old(br.TellBit())
    ensures !done ==>
      CellsFrom(lit.lengths, dist.lengths, br.input, br.TellBit(), br.bytePos, w.cur, w.History()) == whole
    ensures done ==> RepliesCells(whole, r, w.History(), br.TellBit())
  {
    hide Agrees, Val, Sym, SymAt, Fits, ShortLengths, ShortEntry, LongListed, EncodeEntry, CellsFrom, CellsMatch,
      Hi, Extra, IsLiteral, IsExceptional, LengthBase, LengthExtra, DistanceBase, DistanceExtra;
    ghost var p := br.TellBit();
    var e, s := ReadEntry(br, lit);
    if e.Err? {
      return true, Err(Invalid);
    }
    var entry := e.value;
    if IsLiteral(entry) {
      var more;
      more, entry, s, p := LiteralRunU16(br, w, lit, dist.lengths, entry, s, p, whole);
      if !more {
        return false, Ok(());
      }
    }
    if IsExceptional(entry) {
      return true, if Hi(entry) == 0 then Ok(()) else Err(Invalid);
    }
    done, r := MatchU16(br, w, dist, entry, lit.lengths, p, whole);
  }

  /** The direct table's entry for the next symbol, read back; length 0 when the table has none. */
  method PeekEntry(br: BitReader, lit: HuffmanDecoder) returns (e: nat, len: nat, ghost s: int)
    requires lit.Valid() && lit.encoding == LitLen
    requires br.Valid() && LUT_BITS <= br.bits
    ensures s == SymAt(lit.lengths, br.input, br.TellBit())
    ensures len == 0 <==> s < 0 || lit.lengths[s] > LUT_BITS
    ensures len != 0 ==> EntryMeans(e, s) && len == lit.lengths[s]
  {
    hide Val, Sym, Fits, ShortEntry, EncodeEntry, LongListed, IsLiteral, IsExceptional, Hi, Extra, LengthBase,
      LengthExtra;
    s := SymAt(lit.lengths, br.input, br.TellBit());
    e := lit.PeekShort(br);
    len := LenOf(e);
    if len != 0 {
      EntryLitLen(s, lit.lengths[s]);
      TableFacts(s);
    }
  }

  /** The literal run: store the literal in hand, then take the next table entry, until bits or room
      get short, the table has no entry (`more` is false), or the entry is no literal. */
  method LiteralRunU16(br: BitReader, w: Window, lit: HuffmanDecoder, ghost dist: seq<nat>, entry0: nat,
                       ghost s0: nat, ghost p0: nat, ghost whole: Result<(seq<Cell>, nat)>)
      returns (more: bool, entry: nat, ghost s: nat, ghost p: nat)
    requires lit.Valid() && lit.encoding == LitLen && ShortLengths(dist) && w.Valid() && w.cur < U16_FLUSH_AT
    requires br.Valid() && LIT_GUARD <= br.bits <= 63
    requires s0 == SymAt(lit.lengths, br.input, p0) && EntryMeans(entry0, s0)
    requires br.TellBit() == p0 + lit.lengths[s0] && 8 * br.bytePos <= p0 + 63
    requires CellsSymbol(lit.lengths, dist, br.input, p0, br.bytePos, w.cur, w.History()) == whole
    modifies br, w`cur, w.scratch
    ensures br.Valid() && br.bits <= 63 && w.Valid() && br.TellBit() >= old(br.TellBit())
    ensures !more ==>
      CellsFrom(lit.lengths, dist, br.input, br.TellBit(), br.bytePos, w.cur, w.History()) == whole
    ensures more ==>
      && w.cur < U16_FLUSH_AT && s == SymAt(lit.lengths, br.input, p) && s >= 256 && EntryMeans(entry, s)
      && br.TellBit() == p + lit.lengths[s] && 8 * br.bytePos <= p + 63
      && CellsSymbol(lit.lengths, dist, br.input, p, br.bytePos, w.cur, w.History()) == whole
  {
    hide Agrees, Val, Sym, SymAt, Fits, ShortLengths, ShortEntry, LongListed, CellsFrom, CellsMatch, Extra, LengthBase,
      LengthExtra, IsExceptional;
    entry, s, p := entry0, s0, p0;
    while IsLiteral(entry)
      invariant lit.Valid() && lit.encoding == LitLen && w.Valid() && w.cur < U16_FLUSH_AT
      invariant br.Valid() && br.bits <= 63 && br.TellBit() >= old(br.TellBit())
      invariant s == SymAt(lit.lengths, br.input, p) && EntryMeans(entry, s)
      invariant br.TellBit() == p + lit.lengths[s] && 8 * br.bytePos <= p + 63
      invariant CellsSymbol(lit.lengths, dist, br.input, p, br.bytePos, w.cur, w.History()) == whole
      decreases 8 * |br.input| - br.TellBit()
    {
      LiteralCell(Hi(entry) % 0x100);
      w.Push(Hi(entry) % 0x100);
      if br.bits < LIT_GUARD || w.cur >= U16_FLUSH_AT {
        return false, entry, s, p;
      }
      var e, len, s' := PeekEntry(br, lit);
      if len == 0 {
        return false, entry, s, p;
      }
      p, s, entry := br.TellBit(), s', e;
      br.Consume(len);
    }
    more := true;
  }

  lemma LiteralCell(b: u8)
    ensures DecodeCell(b) == Byte(b)
  {
  }

  /** The match in hand: refill for its 33 bits, then length, distance and the copy of cells. */
  method MatchU16(br: BitReader, w: Window, dist: HuffmanDecoder, entry: nat, ghost lit: seq<nat>,
                  ghost p: nat, ghost whole: Result<(seq<Cell>, nat)>)
      returns (done: bool, r: Result<()>)
    requires dist.Valid() && dist.encoding == Dist && ShortLengths(lit) && w.Valid() && w.cur < U16_FLUSH_AT
    requires br.Valid() && br.bits <= 63
    requires var s := SymAt(lit, br.input, p); 257 <= s <= 285 && EntryMeans(entry, s)
    requires br.TellBit() == p + lit[SymAt(lit, br.input, p)] && 8 * br.bytePos <= p + 63
    requires CellsMatch(lit, dist.lengths, br.input, p, br.bytePos, w.cur, w.History()) == whole
    modifies br, w`cur, w.scratch
    ensures br.Valid() && br.bits <= 63 && w.Valid()
    ensures !done ==> br.TellBit() >= old(br.TellBit())
    ensures !done ==>
      CellsFrom(lit, dist.lengths, br.input, br.TellBit(), br.bytePos, w.cur, w.History()) == whole
    ensures done ==> RepliesCells(whole, r, w.History(), br.TellBit())
  {
    hide Agrees, Val, Sym, SymAt, Fits, ShortLengths, ShortEntry, LongListed, EncodeEntry, CellsFrom, CellsSymbol,
      IsLiteral, IsExceptional, Hi, Extra, LengthBase, LengthExtra, DistanceBase, DistanceExtra, StepAt, MatchLoad;
    MatchNext(lit, dist.lengths, br.input, p);
    MatchOrBad(lit, dist.lengths, br.input, p);
    var ok := LoadForMatch(br);
    if !ok {
      return true, Err(UnexpectedEof);
    }
    var m := ReadMatch(br, dist, entry, lit, p);
    if m.Err? {
      return true, Err(Invalid);
    }
    w.Match(m.value.1, m.value.0);
    done, r := false, Ok(());
  }

  /** A refill when fewer than 33 bits are left. */
  method LoadForMatch(br: BitReader) returns (ok: bool)
    requires br.Valid() && br.bits <= 63
    modifies br
    ensures br.Valid() && br.TellBit() == old(br.TellBit()) && br.bits <= 63
    ensures match MatchLoad(|br.input|, old(br.TellBit()), old(br.bytePos))
      case None => !ok
      case Some(at) => ok && br.bytePos == at && br.bits >= 33
  {
    hide Agrees, LoadTo;
    ok := true;
    if br.bits < 33 {
      ok := br.TopUp(NEEDED);
    }
  }

  /** Length and distance of the match, which the register covers. */
  method ReadMatch(br: BitReader, dist: HuffmanDecoder, entry: nat, ghost lit: seq<nat>, ghost p: nat)
      returns (r: Result<(nat, nat)>)
    requires dist.Valid() && dist.encoding == Dist && br.Valid() && 33 <= br.bits <= 63
    requires var s := SymAt(lit, br.input, p); 257 <= s <= 285 && EntryMeans(entry, s)
    requires br.TellBit() == p + lit[SymAt(lit, br.input, p)]
    modifies br
    ensures br.Valid() && br.bits <= 63 && (r.Ok? ==> br.bytePos == old(br.bytePos))
    ensures match StepAt(lit, dist.lengths, br.input, p)
      case Emit(Copy(length, distance), next) => r == Ok((length, distance)) && br.TellBit() == next
      case _ => r == Err(Invalid)
  {
    hide Agrees, Val, Sym, SymAt, Fits, ShortLengths, ShortEntry, LongListed, EncodeEntry, IsLiteral, IsExceptional,
      Hi, Extra, LengthBase, LengthExtra, DistanceAt;
    ghost var s := SymAt(lit, br.input, p);
    TableFacts(s);
    MatchInRange(lit, dist.lengths, br.input, p);
    var length := ReadLength(br, entry, s);
    var d := ReadDistance(br, dist);
    if d.Err? {
      return Err(Invalid);
    }
    if d.value == 0 {
      return Err(Invalid);
    }
    r := Ok((length, d.value));
  }

  lemma MatchInRange(lit: seq<nat>, dist: seq<nat>, input: seq<u8>, p: nat)
    requires 257 <= SymAt(lit, input, p) <= 285
    ensures var s := SymAt(lit, input, p);
      var d := DistanceAt(dist, input, p + lit[s] + LengthExtra(s)); d.Some? ==> d.value.0 > 0
  {
    hide Val, SymAt, LengthBase, LengthExtra, DistanceAt;
    StepValid(lit, dist, input, p);
  }

  // The loop against the run

  /** A fair answer for the rest of a block at p: a success is the run decoded blind; an error is no
      well-formed block with 48 bits from its last symbol on. */
  ghost predicate FairCells(w: Result<(seq<Cell>, nat)>, lit: seq<nat>, dist: seq<nat>, input: seq<u8>, p: nat,
                            cells: seq<Cell>)
  {
    var run := RunFrom(lit, dist, input, p);
    match w
    case Ok((c, q)) => run.end == Done(q) && c == Blind(cells, run.tokens)
    case Err(Invalid) => run.end.Malformed?
    case Err(UnexpectedEof) => run.end.Done? ==> LastCode(lit, dist, input, p) + NEEDED > 8 * |input|
  }

  lemma FairCellsStep(w: Result<(seq<Cell>, nat)>, lit: seq<nat>, dist: seq<nat>, input: seq<u8>, p: nat,
                      cells: seq<Cell>)
    requires p < 8 * |input|
    ensures match StepAt(lit, dist, input, p)
      case BadSymbol => FairCells(Err(Invalid), lit, dist, input, p, cells)
      case EndOfBlock(q) => q <= 8 * |input| ==> FairCells(Ok((cells, q)), lit, dist, input, p, cells)
      case Emit(t, q) => q <= 8 * |input| && FairCells(w, lit, dist, input, q, BlindOne(cells, t)) ==>
        FairCells(w, lit, dist, input, p, cells)
  {
    hide StepAt, BlindOne;
    StepAdvances(lit, dist, input, p);
    var s := StepAt(lit, dist, input, p);
    if s.Emit? && s.next <= 8 * |input| {
      var rest := RunFrom(lit, dist, input, s.next);
      assert ([s.token] + rest.tokens)[1..] == rest.tokens;
    }
  }

  /** A refill that fails anywhere in the symbol at p leaves no room from the last symbol on. */
  lemma FairCellsEnd(lit: seq<nat>, dist: seq<nat>, input: seq<u8>, p: nat, q: nat, cells: seq<Cell>)
    requires q + NEEDED > 8 * |input|
    requires q == p || (var s := StepAt(lit, dist, input, p); s.BadSymbol? || (s.Emit? && q <= s.next))
    ensures FairCells(Err(UnexpectedEof), lit, dist, input, p, cells)
  {
    hide StepAt;
    StepAdvances(lit, dist, input, p);
  }

  /** The window loop answers fairly, wherever its register and its window stand. */
  lemma {:induction false} CellsAreFair(lit: seq<nat>, dist: seq<nat>, input: seq<u8>, p: nat, at: nat, cur: nat,
                                        cells: seq<Cell>)
    requires ShortLengths(lit) && ShortLengths(dist) && p <= 8 * at <= p + 63 && at <= |input|
    ensures FairCells(CellsFrom(lit, dist, input, p, at, cur, cells), lit, dist, input, p, cells)
    decreases 8 * |input| - p, 2
  {
    hide FairCells, CellsSymbol, SymAt, LoadTo;
    if p + NEEDED > 8 * |input| {
      FairCellsEnd(lit, dist, input, p, p, cells);
    } else if SymAt(lit, input, p) < 0 {
      FairCellsStep(Err(Invalid), lit, dist, input, p, cells);
    } else {
      CellsSymbolIsFair(lit, dist, input, p, LoadTo(|input|, p, at, NEEDED),
                        if cur >= U16_FLUSH_AT then U16_WINDOW else cur, cells);
    }
  }

  lemma {:induction false} CellsSymbolIsFair(lit: seq<nat>, dist: seq<nat>, input: seq<u8>, p: nat, at: nat, cur: nat,
                                             cells: seq<Cell>)
    requires ShortLengths(lit) && ShortLengths(dist) && SymAt(lit, input, p) >= 0
    requires p + lit[SymAt(lit, input, p)] <= 8 * at <= p + 63 && at <= |input|
    ensures FairCells(CellsSymbol(lit, dist, input, p, at, cur, cells), lit, dist, input, p, cells)
    decreases 8 * |input| - p, 1
  {
    hide FairCells, CellsFrom, CellsMatch, ShortLengths, SymAt;
    var s := SymAt(lit, input, p);
    var q := p + lit[s];
    var w := CellsSymbol(lit, dist, input, p, at, cur, cells);
    if s < 256 {
      var n := SymAt(lit, input, q);
      if 8 * at < q + LIT_GUARD || cur + 1 >= U16_FLUSH_AT || n < 0 || lit[n] > LUT_BITS {
        CellsAreFair(lit, dist, input, q, at, cur + 1, cells + [Byte(s)]);
      } else {
        CellsSymbolIsFair(lit, dist, input, q, at, cur + 1, cells + [Byte(s)]);
      }
    } else if 257 <= s <= 285 {
      CellsMatchIsFair(lit, dist, input, p, at, cur, cells);
    }
    FairCellsStep(w, lit, dist, input, p, cells);
  }

  lemma {:induction false} CellsMatchIsFair(lit: seq<nat>, dist: seq<nat>, input: seq<u8>, p: nat, at: nat, cur: nat,
                                            cells: seq<Cell>)
    requires ShortLengths(lit) && ShortLengths(dist) && 257 <= SymAt(lit, input, p) <= 285
    requires p + lit[SymAt(lit, input, p)] <= 8 * at <= p + 63 && at <= |input|
    ensures FairCells(CellsMatch(lit, dist, input, p, at, cur, cells), lit, dist, input, p, cells)
    decreases 8 * |input| - p, 0
  {
    hide FairCells, CellsFrom, ShortLengths, SymAt, StepAt, MatchLoad;
    MatchNext(lit, dist, input, p);
    MatchOrBad(lit, dist, input, p);
    var q := p + lit[SymAt(lit, input, p)];
    var s := StepAt(lit, dist, input, p);
    var load := MatchLoad(|input|, q, at);
    if load.None? {
      FairCellsEnd(lit, dist, input, p, q, cells);
    } else {
      if s.Emit? {
        CellsAreFair(lit, dist, input, s.next, load.value, cur + s.token.len, BlindOne(cells, s.token));
      }
      FairCellsStep(CellsMatch(lit, dist, input, p, at, cur, cells), lit, dist, input, p, cells);
    }
  }

  lemma MatchOrBad(lit: seq<nat>, dist: seq<nat>, input: seq<u8>, p: nat)
    requires 257 <= SymAt(lit, input, p) <= 285
    ensures var s := StepAt(lit, dist, input, p); s.BadSymbol? || (s.Emit? && s.next >= p + lit[SymAt(lit, input, p)])
  {
    hide Val, SymAt, LengthBase, LengthExtra, DistanceBase, DistanceExtra;
  }
}
