/** Block headers and the block dispatchers of the decoders (deflate/inflate.rs,
    deflate/fast_inflate.rs, deflate/block_finder.rs). */
module Blocks {
  import opened Words
  import opened BitStream
  import opened Canonical
  import opened Tables
  import opened Huffman
  import opened Lz77
  import opened Deflate
  import opened Kernels

  function ToUnit<T>(r: Result<T>): Result<()> {
    match r case Ok(_) => Ok(()) case Err(e) => Err(e)
  }

  /** The code-length code's lengths, three bits each. */
  method ReadCodeLengthCode(br: BitReader, n: nat) returns (r: Result<seq<nat>>)
    requires br.Valid() && n <= 19
    modifies br
    ensures br.Valid() && (old(br.bits) <= 63 && r.Ok? ==> br.bits <= 63)
    ensures var p := old(br.TellBit());
      if p + 3 * n > 8 * |br.input| then r == Err(UnexpectedEof)
      else r == Ok(CodeLengthCode(br.input, p, n)) && br.TellBit() == p + 3 * n
  {
    hide Agrees, Val;
    ghost var p := br.TellBit();
    var cl := seq(19, _ => 0);
    var i := 0;
    while i < n
      invariant 0 <= i <= n
      invariant br.Valid() && br.TellBit() == p + 3 * i && (old(br.bits) <= 63 ==> br.bits <= 63)
      invariant cl == CodeLengthCode(br.input, p, i)
    {
      var v := br.Read(3);
      if v.Err? {
        return Err(UnexpectedEof);
      }
      cl := cl[CODE_LENGTH_ORDER[i] := v.value];
      i := i + 1;
    }
    r := Ok(cl);
  }

  /** How often a repeat symbol (16 to 18) repeats. */
  method ReadRepeat(br: BitReader, sym: nat) returns (n: Result<nat>)
    requires br.Valid() && 16 <= sym <= 18
    modifies br
    ensures br.Valid() && (n.Ok? ==> br.bits <= 63)
    ensures var p, extra := old(br.TellBit()), RepeatExtra(sym);
      if p + extra > 8 * |br.input| then n == Err(UnexpectedEof)
      else n == Ok(Val(br.input, p, extra) + RepeatBase(sym)) && br.TellBit() == p + extra
  {
    hide Agrees, Val;
    n := br.Read(RepeatExtra(sym));
    if n.Ok? {
      n := Ok(n.value + RepeatBase(sym));
    }
  }

  method FillLengths(lengths: array<nat>, i: nat, count: nat, x: nat)
    requires i + count <= lengths.Length
    modifies lengths
    ensures lengths[..i + count] == old(lengths[..i]) + Repeat(x, count)
    ensures forall j | i + count <= j < lengths.Length :: lengths[j] == old(lengths[j])
  {
    forall j | i <= j < i + count {
      lengths[j] := x;
    }
  }

  /** One code-length symbol: a length, or a repeat, written at i; runs of zeros skip over what is zero
      already. Returns the next free place. */
  method ReadOneLength(br: BitReader, cl: HuffmanDecoder, lengths: array<nat>, i: nat) returns (r: Result<nat>)
    requires br.Valid() && cl.Valid() && cl.encoding == Simple && |cl.lengths| == 19 && lengths != cl.lut
    requires i < lengths.Length && forall j | i <= j < lengths.Length :: lengths[j] == 0
    modifies br, lengths
    ensures br.Valid() && (r.Ok? ==> br.bits <= 63)
    ensures var all := LengthsFrom(cl.lengths, br.input, old(br.TellBit()), old(lengths[..i]), lengths.Length);
      match r
      case Err(e) => all == Err(e)
      case Ok(next) =>
        && i < next <= lengths.Length
        && (forall j | next <= j < lengths.Length :: lengths[j] == 0)
        && LengthsFrom(cl.lengths, br.input, br.TellBit(), lengths[..next], lengths.Length) == all
  {
    hide Agrees, Val, SymAt, Fits, ShortLengths, ShortEntry, LongListed, EncodeEntry, Hi, LookupAt, Repeat,
      RepeatExtra, RepeatBase;
    var e := cl.Lookup(br);
    if e.Err? {
      return Err(e.error);
    }
    var sym := Hi(e.value);
    ghost var acc := lengths[..i];
    if sym <= 15 {
      lengths[i] := sym;
      assert lengths[..i + 1] == acc + [sym];
      return Ok(i + 1);
    }
    if sym > 18 || (sym == 16 && i == 0) {
      return Err(Invalid);
    }
    var n := ReadRepeat(br, sym);
    if n.Err? {
      return Err(UnexpectedEof);
    }
    if i + n.value > lengths.Length {
      return Err(Invalid);
    }
    if sym == 16 {
      FillLengths(lengths, i, n.value, lengths[i - 1]);
    } else {
      ZerosAhead(lengths[..], i, n.value);
    }
    r := Ok(i + n.value);
  }

  /** The run-length coded code lengths. */
  method ReadLengths(br: BitReader, cl: HuffmanDecoder, total: nat) returns (r: Result<seq<nat>>)
    requires br.Valid() && cl.Valid() && cl.encoding == Simple && |cl.lengths| == 19
    modifies br
    ensures br.Valid() && (old(br.bits) <= 63 && r.Ok? ==> br.bits <= 63)
    ensures match LengthsFrom(cl.lengths, br.input, old(br.TellBit()), [], total)
      case Err(e) => r == Err(e)
      case Ok((lengths, end)) => r == Ok(lengths) && br.TellBit() == end
  {
    hide Agrees, Val, LengthsFrom, SymAt, Fits, ShortLengths, ShortEntry, LongListed;
    ghost var p := br.TellBit();
    var lengths := new nat[total](_ => 0);
    var i := 0;
    assert lengths[..0] == [];
    while i < total
      invariant 0 <= i <= total && lengths.Length == total
      invariant br.Valid() && cl.Valid() && (old(br.bits) <= 63 ==> br.bits <= 63)
      invariant forall j | i <= j < total :: lengths[j] == 0
      invariant LengthsFrom(cl.lengths, br.input, br.TellBit(), lengths[..i], total)
             == LengthsFrom(cl.lengths, br.input, p, [], total)
      decreases total - i
    {
      var next := ReadOneLength(br, cl, lengths, i);
      if next.Err? {
        return Err(next.error);
      }
      i := next.value;
    }
    LengthsComplete(cl.lengths, br.input, br.TellBit(), lengths[..i]);
    r := Ok(lengths[..]);
    assert lengths[..] == lengths[..i];
  }

  lemma LengthsComplete(cl: seq<nat>, input: seq<u8>, p: nat, acc: seq<nat>)
    ensures LengthsFrom(cl, input, p, acc, |acc|) == Ok((acc, p))
  {
  }

  lemma ZerosAhead(lengths: seq<nat>, i: nat, n: nat)
    requires i + n <= |lengths| && forall j | i <= j < |lengths| :: lengths[j] == 0
    ensures lengths[..i + n] == lengths[..i] + Repeat(0, n)
  {
  }

  /** The counts of the three codes; `Err` also when they are out of range. */
  method ReadCounts(br: BitReader) returns (r: Result<(nat, nat, nat)>)
    requires br.Valid()
    modifies br
    ensures br.Valid() && (r.Ok? ==> br.bits <= 63)
    ensures var p := old(br.TellBit());
      var hlit, hdist := Val(br.input, p, 5) + 257, Val(br.input, p + 5, 5) + 1;
      if p + 14 > 8 * |br.input| then r == Err(UnexpectedEof)
      else if hlit > 286 || hdist > 30 then r == Err(Invalid)
      else r == Ok((hlit, hdist, Val(br.input, p + 10, 4) + 4)) && br.TellBit() == p + 14
  {
    hide Agrees, Val;
    var hlit := br.Read(5);
    if hlit.Err? { return Err(UnexpectedEof); }
    var hdist := br.Read(5);
    if hdist.Err? { return Err(UnexpectedEof); }
    var hclen := br.Read(4);
    if hclen.Err? { return Err(UnexpectedEof); }
    var nlit, ndist := hlit.value + 257, hdist.value + 1;
    if nlit > 286 || ndist > 30 { return Err(Invalid); }
    r := Ok((nlit, ndist, hclen.value + 4));
  }

  /** The counts, the code-length code and all code lengths. */
  method ReadAllLengths(br: BitReader, strict: bool) returns (r: Result<(seq<nat>, nat)>)
    requires br.Valid()
    modifies br
    ensures br.Valid() && (old(br.bits) <= 63 && r.Ok? ==> br.bits <= 63)
    ensures match LengthsAt(br.input, old(br.TellBit()), strict)
      case Err(e) => r == Err(e)
      case Ok((lengths, hlit, end)) => r == Ok((lengths, hlit)) && br.TellBit() == end
  {
    hide Agrees, Val, SymAt, Fits, ShortLengths, Accepts, CodeLengthCode, LengthsFrom, ShortEntry, LongListed;
    ValBoundFour(br.input, br.TellBit() + 10);
    var counts := ReadCounts(br);
    if counts.Err? { return Err(counts.error); }
    var (nlit, ndist, ncl) := counts.value;
    var clLengths := ReadCodeLengthCode(br, ncl);
    if clLengths.Err? { return Err(UnexpectedEof); }
    var cl := new HuffmanDecoder();
    var built := cl.Build(clLengths.value, strict, Simple);
    if built.Err? { return Err(Invalid); }
    var lengths := ReadLengths(br, cl, nlit + ndist);
    r := if lengths.Err? then Err(lengths.error) else Ok((lengths.value, nlit));
  }

  /** The dynamic-block header after the block type. The strict form is the block finder's: it refuses
      incomplete codes and builds bare symbol tables; the other is the decoder's. */
  method ReadDynamicHeader(br: BitReader, strict: bool)
      returns (r: Result<()>, lit: HuffmanDecoder, dist: HuffmanDecoder)
    requires br.Valid()
    modifies br
    ensures br.Valid() && (old(br.bits) <= 63 && r.Ok? ==> br.bits <= 63)
    ensures fresh(lit) && fresh(lit.lut) && fresh(dist) && fresh(dist.lut)
    ensures r == ToUnit(HeaderAt(br.input, old(br.TellBit()), strict))
    ensures r.Ok? ==>
      var h := HeaderAt(br.input, old(br.TellBit()), strict).value;
      && lit.Valid() && lit.lengths == h.lit && lit.encoding == (if strict then Simple else LitLen)
      && dist.Valid() && dist.lengths == h.dist && dist.encoding == (if strict then Simple else Dist)
      && br.TellBit() == h.end
  {
    hide Agrees, LengthsAt, Fits, ShortLengths, Accepts, ShortEntry, LongListed;
    lit := new HuffmanDecoder();
    dist := new HuffmanDecoder();
    var all := ReadAllLengths(br, strict);
    if all.Err? { return Err(all.error), lit, dist; }
    var (lengths, hlit) := all.value;
    if lengths[256] == 0 { return Err(Invalid), lit, dist; }
    r := lit.Build(lengths[..hlit], strict, if strict then Simple else LitLen);
    if r.Err? { return; }
    r := dist.Build(lengths[hlit..], strict, if strict then Simple else Dist);
  }

  /** The decoders of a fixed block. */
  method FixedDecoders() returns (lit: HuffmanDecoder, dist: HuffmanDecoder)
    ensures fresh(lit) && fresh(lit.lut) && fresh(dist) && fresh(dist.lut)
    ensures Ready(lit, dist) && lit.lengths == FixedLit() && dist.lengths == FixedDist()
  {
    hide ShortLengths, Fits, FixedLit, FixedDist, ShortEntry, LongListed;
    lit := new HuffmanDecoder();
    dist := new HuffmanDecoder();
    FixedFit();
    FixedSizes();
    var l := lit.Build(FixedLit(), false, LitLen);
    var d := dist.Build(FixedDist(), false, Dist);
  }

  /** The two decoders a compressed block announces. */
  method BlockDecoders(br: BitReader, btype: nat) returns (r: Result<()>, lit: HuffmanDecoder, dist: HuffmanDecoder)
    requires br.Valid() && (btype == 1 || btype == 2)
    modifies br
    ensures br.Valid() && (old(br.bits) <= 63 && r.Ok? ==> br.bits <= 63)
    ensures fresh(lit) && fresh(lit.lut) && fresh(dist) && fresh(dist.lut)
    ensures r.Ok? ==> Ready(lit, dist)
    ensures btype == 1 ==> r.Ok? && lit.lengths == FixedLit() && dist.lengths == FixedDist()
                           && br.TellBit() == old(br.TellBit())
    ensures btype == 2 ==> r == ToUnit(HeaderAt(br.input, old(br.TellBit()), false))
    ensures btype == 2 && r.Ok? ==>
      var h := HeaderAt(br.input, old(br.TellBit()), false).value;
      lit.lengths == h.lit && dist.lengths == h.dist && br.TellBit() == h.end
  {
    hide HeaderAt, FixedLit, FixedDist, Agrees, ShortLengths, Fits, ShortEntry, LongListed;
    if btype == 1 {
      lit, dist := FixedDecoders();
      r := Ok(());
    } else {
      r, lit, dist := ReadDynamicHeader(br, false);
    }
  }

  lemma AlignedIs(p: nat, q: nat)
    requires q % 8 == 0 && p <= q < p + 8
    ensures q == Aligned(p)
  {
  }

  /** The length of a stored block, after alignment; an error when the two copies of it disagree. */
  method ReadStoredLength(br: BitReader) returns (r: Result<nat>)
    requires br.Valid()
    modifies br
    ensures br.Valid() && (r.Ok? ==> br.bits <= 63)
    ensures var a := Aligned(old(br.TellBit()));
      if a + 32 > 8 * |br.input| then r == Err(UnexpectedEof)
      else if Val(br.input, a, 16) + Val(br.input, a + 16, 16) != 0xFFFF then r == Err(Invalid)
      else r == Ok(Val(br.input, a, 16)) && br.TellBit() == a + 32
  {
    hide Agrees, Val, Aligned, Xor;
    br.ByteAlign();
    AlignedIs(old(br.TellBit()), br.TellBit());
    var len := br.Read(16);
    if len.Err? { return Err(UnexpectedEof); }
    var nlen := br.Read(16);
    if nlen.Err? { return Err(UnexpectedEof); }
    ValBoundSixteen(br.input, Aligned(old(br.TellBit())));
    XorZero(0xFFFF - len.value, nlen.value);
    r := if Xor(0xFFFF - len.value, nlen.value) != 0 then Err(Invalid) else Ok(len.value);
  }

  lemma ValBoundSixteen(input: seq<u8>, p: nat)
    ensures Val(input, p, 16) <= 0xFFFF
  {
    ValBound(input, p, 16);
    assert Pow2(8) == 256 && Pow2(12) == 4096 && Pow2(14) == 16384;
  }

  /** A stored block appended byte by byte. */
  method DecodeStored(br: BitReader, out0: seq<u8>) returns (r: Result<()>, out: seq<u8>)
    requires br.Valid()
    modifies br
    ensures br.Valid() && (r.Ok? ==> br.bits <= 63)
    ensures var a := Aligned(old(br.TellBit()));
      var len := Val(br.input, a, 16);
      if a + 32 > 8 * |br.input| then r == Err(UnexpectedEof)
      else if len + Val(br.input, a + 16, 16) != 0xFFFF then r == Err(Invalid)
      else if a + 32 + 8 * len > 8 * |br.input| then r == Err(UnexpectedEof)
      else r == Ok(()) && br.TellBit() == a + 32 + 8 * len
           && Apply(out0, StoredFrom(br.input, a + 32, len)) == Some(out)
  {
    hide Agrees, Val;
    out := out0;
    var len := ReadStoredLength(br);
    if len.Err? { return Err(len.error), out; }
    ghost var q := br.TellBit();
    var k := 0;
    while k < len.value
      invariant 0 <= k <= len.value
      invariant br.Valid() && br.bits <= 63 && br.TellBit() == q + 8 * k
      invariant Apply(out, StoredFrom(br.input, q + 8 * k, len.value - k))
             == Apply(out0, StoredFrom(br.input, q, len.value))
    {
      ghost var p := br.TellBit();
      StoredStep(out, br.input, p, len.value - k);
      var b := br.Read(8);
      if b.Err? { return Err(UnexpectedEof), out; }
      ValBoundEight(br.input, p);
      out := out + [b.value];
      k := k + 1;
    }
    r := Ok(());
  }

  lemma StoredStep(out: seq<u8>, input: seq<u8>, p: nat, n: nat)
    requires n > 0
    ensures Apply(out, StoredFrom(input, p, n)) == Apply(out + [ByteAt(input, p)], StoredFrom(input, p + 8, n - 1))
  {
    var ts := StoredFrom(input, p, n);
    assert ts[1..] == StoredFrom(input, p + 8, n - 1);
  }

  // One block, as the streaming decoder has it

  /** The block at p after `out`: whether it is final, the output, and its end. */
  ghost function StreamBlock(input: seq<u8>, p: nat, out: seq<u8>): Result<(bool, seq<u8>, nat)> {
    if p + 3 > 8 * |input| then Err(UnexpectedEof)
    else
      var final := Val(input, p, 1) != 0;
      var btype := Val(input, p + 1, 2);
      if btype == 0 then WithFinal(final, StreamStored(input, Aligned(p + 3), out))
      else if btype <= 2 then WithFinal(final, StreamBody(input, p + 3, btype, out))
      else Err(Invalid)
  }

  /** The symbols of a fixed (1) or dynamic (2) block whose type ends at p. */
  ghost function StreamBody(input: seq<u8>, p: nat, btype: nat, out: seq<u8>): Result<(seq<u8>, nat)> {
    if btype == 1 then SymbolsFrom(FixedLit(), FixedDist(), input, p, out)
    else match HeaderAt(input, p, false)
      case Err(e) => Err(e)
      case Ok(h) => SymbolsFrom(h.lit, h.dist, input, h.end, out)
  }

  function WithFinal(final: bool, r: Result<(seq<u8>, nat)>): Result<(bool, seq<u8>, nat)> {
    match r
    case Err(e) => Err(e)
    case Ok((out, end)) => Ok((final, out, end))
  }

  /** A stored block whose length stands at the aligned bit a. */
  ghost function StreamStored(input: seq<u8>, a: nat, out: seq<u8>): Result<(seq<u8>, nat)> {
    var len := Val(input, a, 16);
    if a + 32 > 8 * |input| then Err(UnexpectedEof)
    else if len + Val(input, a + 16, 16) != 0xFFFF then Err(Invalid)
    else if a + 32 + 8 * len > 8 * |input| then Err(UnexpectedEof)
    else match Apply(out, StoredFrom(input, a + 32, len))
      case None => Err(Invalid)
      case Some(next) => Ok((next, a + 32 + 8 * len))
  }

  /** Where the last symbol of a compressed block starts, when its type ends at p. */
  ghost function LastCodeAt(input: seq<u8>, p: nat, btype: nat): nat {
    if btype == 1 then LastCode(FixedLit(), FixedDist(), input, p)
    else match HeaderAt(input, p, false)
      case Err(_) => p
      case Ok(h) => LastCode(h.lit, h.dist, input, h.end)
  }

  /** 48 bits are there from the start of the last symbol of the block at p; a stored block needs none. */
  ghost predicate BlockRoom(input: seq<u8>, p: nat) {
    var btype := Val(input, p + 1, 2);
    btype == 0 || LastCodeAt(input, p + 3, btype) + 48 <= 8 * |input|
  }

  lemma BodyExactly(input: seq<u8>, p: nat, btype: nat, out: seq<u8>)
    requires btype == 1 || btype == 2
    ensures var run, r := BodyAt(input, p, btype), StreamBody(input, p, btype, out);
      && (r.Ok? <==> run.end.Done? && Apply(out, run.tokens).Some?
                     && LastCodeAt(input, p, btype) + 48 <= 8 * |input|)
      && (r.Ok? ==> run.end == Done(r.value.1) && Apply(out, run.tokens) == Some(r.value.0))
      && (run.end.Done? ==> LastCodeAt(input, p, btype) < run.end.pos)
  {
    hide SymbolsFrom, RunFrom, LastCode, Apply, HeaderAt, FixedLit, FixedDist, ShortLengths, Fits;
    if btype == 1 {
      FixedFit();
      SymbolsExactly(FixedLit(), FixedDist(), input, p, out);
      LastCodeBefore(FixedLit(), FixedDist(), input, p);
    } else {
      HeaderAdvances(input, p, false);
      var h := HeaderAt(input, p, false);
      if h.Ok? {
        SymbolsExactly(h.value.lit, h.value.dist, input, h.value.end, out);
        LastCodeBefore(h.value.lit, h.value.dist, input, h.value.end);
      }
    }
  }

  /** The streaming decoder has a block exactly when it is well formed, its distances stay inside the
      output, and there is room behind its last symbol's start. */
  lemma StreamExactly(input: seq<u8>, p: nat, out: seq<u8>)
    ensures var r, b := StreamBlock(input, p, out), BlockAt(input, p);
      && (r.Ok? <==> b.Block? && Apply(out, b.tokens).Some? && BlockRoom(input, p))
      && (r.Ok? ==> r.value.0 == b.final && Apply(out, b.tokens) == Some(r.value.1) && r.value.2 == b.end)
      && (b.Block? && !BlockRoom(input, p) ==> b.end + 48 > 8 * |input|)
  {
    hide Val, StreamBody, BodyAt, LastCodeAt, StoredFrom, Apply, Aligned;
    var btype := Val(input, p + 1, 2);
    if btype == 1 || btype == 2 {
      BodyExactly(input, p + 3, btype, out);
    } else if btype == 0 {
      var a := Aligned(p + 3);
      StoredApplies(input, a + 32, Val(input, a, 16), out);
    }
  }

  lemma {:induction false} StoredApplies(input: seq<u8>, p: nat, n: nat, out: seq<u8>)
    ensures Apply(out, StoredFrom(input, p, n)).Some?
    decreases n
  {
    if n > 0 {
      StoredStep(out, input, p, n);
      StoredApplies(input, p + 8, n - 1, out + [ByteAt(input, p)]);
    }
  }

  /** What a byte decoder may answer for the block at p: a success is the block's; where the streaming
      decoder succeeds it does too; and without the preloading loop the answer is the streaming decoder's,
      errors included. */
  ghost predicate BlockAnswers(input: seq<u8>, p: nat, out0: seq<u8>, preload: bool, r: Result<bool>, out: seq<u8>,
                               pos: nat)
  {
    var b, exact := BlockAt(input, p), StreamBlock(input, p, out0);
    && (r.Ok? ==> b.Block? && b.final == r.value && b.end == pos && Apply(out0, b.tokens) == Some(out))
    && (exact.Ok? ==> r == Ok(exact.value.0) && out == exact.value.1 && pos == exact.value.2)
    && (exact.Err? && !preload ==> r == Err(exact.error))
  }

  /** An error of a byte decoder has a reason: the block is malformed, a distance reaches too far, or the
      room behind its last symbol's start is short, and then so is that behind its end. */
  lemma AnswerFails(input: seq<u8>, p: nat, out0: seq<u8>, preload: bool, r: Result<bool>, out: seq<u8>, pos: nat)
    requires BlockAnswers(input, p, out0, preload, r, out, pos) && r.Err?
    ensures var b := BlockAt(input, p);
      b.BadBlock? || Apply(out0, b.tokens).None? || (!BlockRoom(input, p) && b.end + 48 > 8 * |input|)
  {
    hide BlockAt, StreamBlock, Apply, BlockRoom;
    StreamExactly(input, p, out0);
  }

  /** The symbols of a compressed block. */
  method DecodeBody(br: BitReader, btype: nat, out0: seq<u8>, preload: bool) returns (r: Result<()>, out: seq<u8>)
    requires br.Valid() && br.bits <= 63 && (btype == 1 || btype == 2)
    modifies br
    ensures br.Valid() && (r.Ok? ==> br.bits <= 63)
    ensures var run := BodyAt(br.input, old(br.TellBit()), btype);
      var exact := StreamBody(br.input, old(br.TellBit()), btype, out0);
      && (r.Ok? ==> run.end == Done(br.TellBit()) && Apply(out0, run.tokens) == Some(out))
      && (exact.Ok? || !preload ==> Replies(exact, r, out, br.TellBit()))
  {
    hide Agrees, Val, RunFrom, Apply, HeaderAt, FixedLit, FixedDist, SymbolsFrom, PreloadFrom;
    out := out0;
    ghost var p := br.TellBit();
    BodyExactly(br.input, p, btype, out0);
    var lit, dist;
    r, lit, dist := BlockDecoders(br, btype);
    if r.Err? { return; }
    ghost var q, at := br.TellBit(), br.bytePos;
    if preload {
      r, out := DecodeCompressedPreload(br, lit, dist, out0);
      PreloadAnswer(lit.lengths, dist.lengths, br.input, q, at, out0, r, out, br.TellBit());
    } else {
      r, out := DecodeCompressed(br, lit, dist, out0);
    }
  }

  lemma PreloadAnswer(lit: seq<nat>, dist: seq<nat>, input: seq<u8>, p: nat, at: nat, out0: seq<u8>, r: Result<()>,
                      out: seq<u8>, pos: nat)
    requires ShortLengths(lit) && ShortLengths(dist) && p <= 8 * at <= p + 63 && at <= |input|
    requires Replies(PreloadFrom(lit, dist, input, p, at, out0), r, out, pos)
    ensures var run := RunFrom(lit, dist, input, p);
      r.Ok? ==> run.end == Done(pos) && Apply(out0, run.tokens) == Some(out)
    ensures var exact := SymbolsFrom(lit, dist, input, p, out0); exact.Ok? ==> Replies(exact, r, out, pos)
  {
    hide SymbolsFrom, PreloadFrom, RunFrom, Apply, ShortLengths;
    PreloadIsFair(lit, dist, input, p, at, out0);
  }

  /** One block, by the double-literal loop or by the preloaded one. */
  method DecodeOneBlock(br: BitReader, out0: seq<u8>, preload: bool) returns (r: Result<bool>, out: seq<u8>)
    requires br.Valid()
    modifies br
    ensures br.Valid() && (r.Ok? ==> br.bits <= 63)
    ensures BlockAnswers(br.input, old(br.TellBit()), out0, preload, r, out, br.TellBit())
  {
    hide Agrees, Val, Apply, BodyAt, StoredFrom, StreamBody;
    out := out0;
    var bfinal := br.Read(1);
    if bfinal.Err? { return Err(UnexpectedEof), out; }
    var btype := br.Read(2);
    if btype.Err? { return Err(UnexpectedEof), out; }
    var u: Result<()> := Err(Invalid);
    if btype.value == 0 {
      u, out := DecodeStored(br, out0);
    } else if btype.value <= 2 {
      u, out := DecodeBody(br, btype.value, out0, preload);
    }
    r := if u.Ok? then Ok(bfinal.value != 0) else Err(u.error);
  }
}
