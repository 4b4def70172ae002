/** The block decoder of the streaming path (deflate/inflate.rs): one symbol per turn, and an exact
    account of when it runs out of input. */
module Stream {
  import opened Words
  import opened BitStream
  import opened Canonical
  import opened Tables
  import opened Huffman
  import opened Lz77
  import opened Deflate
  import opened Kernels
  import opened Blocks

  /** One symbol of the loop, after its refill. */
  method DecodeSymbol(br: BitReader, lit: HuffmanDecoder, dist: HuffmanDecoder, out0: seq<u8>)
      returns (done: bool, r: Result<()>, out: seq<u8>)
    requires Ready(lit, dist) && br.Valid() && NEEDED <= br.bits
    modifies br
    ensures br.Valid() && (!done || r.Ok? ==> br.bits <= 63)
    ensures match StepAt(lit.lengths, dist.lengths, br.input, old(br.TellBit()))
      case BadSymbol => done && r == Err(Invalid)
      case EndOfBlock(q) => done && r == Ok(()) && out == out0 && br.TellBit() == q
      case Emit(t, q) =>
        match ApplyOne(out0, t)
        case None => done && r == Err(Invalid)
        case Some(next) => !done && out == next && br.TellBit() == q
  {
    hide Agrees, Val, Sym, SymAt, Fits, ShortLengths, ShortEntry, LongListed, EncodeEntry, IsLiteral, IsExceptional,
      Hi, Extra, DistanceAt, ApplyOne, LengthBase, LengthExtra, DistanceBase, DistanceExtra;
    out := out0;
    var e, s := ReadEntry(br, lit);
    if e.Err? {
      return true, Err(Invalid), out;
    }
    if IsLiteral(e.value) {
      out := out + [Hi(e.value) % 0x100];
      LiteralApplies(out0, Hi(e.value) % 0x100);
      return false, Ok(()), out;
    }
    if IsExceptional(e.value) {
      return true, if Hi(e.value) == 0 then Ok(()) else Err(Invalid), out;
    }
    var length := ReadLength(br, e.value, s);
    done, r, out := CopyMatch(br, dist, length, out);
  }

  lemma LiteralApplies(out: seq<u8>, b: u8)
    ensures ApplyOne(out, Lit(b)) == Some(out + [b])
  {
  }

  /** `decode_block`: a symbol per turn until the end of the block. */
  method DecodeSymbols(br: BitReader, lit: HuffmanDecoder, dist: HuffmanDecoder, out0: seq<u8>)
      returns (r: Result<()>, out: seq<u8>)
    requires Ready(lit, dist) && br.Valid()
    modifies br
    ensures br.Valid()
    ensures match SymbolsFrom(lit.lengths, dist.lengths, br.input, old(br.TellBit()), out0)
      case Err(e) => r == Err(e)
      case Ok((o, q)) => r == Ok(()) && out == o && br.TellBit() == q && br.bits <= 63
  {
    hide Agrees, StepAt, ApplyOne, Fits, ShortLengths, ShortEntry, LongListed;
    out := out0;
    while true
      invariant br.Valid() && Ready(lit, dist)
      invariant SymbolsFrom(lit.lengths, dist.lengths, br.input, br.TellBit(), out)
             == SymbolsFrom(lit.lengths, dist.lengths, br.input, old(br.TellBit()), out0)
      decreases 8 * |br.input| - br.TellBit()
    {
      StepAdvances(lit.lengths, dist.lengths, br.input, br.TellBit());
      var ok := br.Refill(NEEDED);
      if ok.Err? {
        return Err(UnexpectedEof), out;
      }
      var done;
      done, r, out := DecodeSymbol(br, lit, dist, out);
      if done {
        return;
      }
    }
  }

  /** `inflate_block`: exactly the block the stream has here, or its error. */
  method InflateBlock(br: BitReader, out0: seq<u8>) returns (r: Result<bool>, out: seq<u8>)
    requires br.Valid()
    modifies br
    ensures br.Valid()
    ensures match StreamBlock(br.input, old(br.TellBit()), out0)
      case Err(e) => r == Err(e)
      case Ok((final, o, end)) => r == Ok(final) && out == o && br.TellBit() == end
  {
    hide Agrees, Val, Apply, HeaderAt, StoredFrom, SymbolsFrom, FixedLit, FixedDist;
    out := out0;
    var bfinal := br.Read(1);
    if bfinal.Err? { return Err(UnexpectedEof), out; }
    var btype := br.Read(2);
    if btype.Err? { return Err(UnexpectedEof), out; }
    var u: Result<()> := Err(Invalid);
    if btype.value == 0 {
      u, out := DecodeStored(br, out0);
    } else if btype.value <= 2 {
      var lit, dist;
      u, lit, dist := BlockDecoders(br, btype.value);
      if u.Ok? {
        u, out := DecodeSymbols(br, lit, dist, out0);
      }
    }
    r := if u.Ok? then Ok(bfinal.value != 0) else Err(u.error);
  }
}
