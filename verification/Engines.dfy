/** The two decoders of the repository side by side: the table-driven one (deflate/inflate.rs) and the one
    kept as a baseline (deflate/safe_inflate.rs). */
module Engines {
  import opened Words
  import opened BitStream
  import opened Canonical
  import opened Lz77
  import opened Deflate
  import opened Kernels
  import opened Blocks
  import opened Stream
  import opened StreamReader
  import opened SafeInflate

  /** Where the last symbol of the compressed block at p starts, by the baseline decoder's reading. */
  ghost function LastSafeCode(input: seq<u8>, p: nat): nat {
    if Val(input, p + 1, 2) == 1 then LastCode(FixedLit(), FixedDist(), input, p + 3)
    else match SafeHeaderAt(input, p + 3)
      case None => p
      case Some(h) => LastCode(h.lit, h.dist, input, h.end)
  }

  /** In every compressed block of the stream from p on, 48 bits are there from the start of the last symbol,
      the end-of-block code, on. */
  ghost predicate Room(input: seq<u8>, p: nat)
    decreases 8 * |input| - p
  {
    SafeBlockFacts(input, p);
    match SafeBlockAt(input, p)
    case BadBlock => true
    case Block(_, final, end) =>
      && (Val(input, p + 1, 2) == 0 || LastSafeCode(input, p) + 48 <= 8 * |input|)
      && (final || Room(input, end))
  }

  /** For a block the baseline decoder has, its room covers what the table decoder asks for in the header. */
  lemma RoomCovers(input: seq<u8>, p: nat)
    requires SafeBlockAt(input, p).Block?
    ensures HeaderRoom(input, p) && BlockRoom(input, p) <==>
      Val(input, p + 1, 2) == 0 || LastSafeCode(input, p) + 48 <= 8 * |input|
  {
    hide Val, HeaderAt, SafeHeaderAt, RunFrom, LastCode, StoredFrom, FixedLit, FixedDist, LastLengthAt;
    HeadersAgree(input, p + 3);
  }

  /** A block of the streaming decoder against the block the baseline decoder has. */
  lemma StreamIsSafe(input: seq<u8>, p: nat, out: seq<u8>)
    ensures var r, s := StreamBlock(input, p, out), SafeBlockAt(input, p);
      && (r.Ok? <==> s.Block? && Apply(out, s.tokens).Some?
                     && (Val(input, p + 1, 2) == 0 || LastSafeCode(input, p) + 48 <= 8 * |input|))
      && (r.Ok? ==> r.value == (s.final, Apply(out, s.tokens).value, s.end))
  {
    hide Val, StreamBlock, BlockAt, SafeBlockAt, Apply, BlockRoom, HeaderRoom, LastSafeCode;
    StreamExactly(input, p, out);
    BlocksAgree(input, p);
    if SafeBlockAt(input, p).Block? { RoomCovers(input, p); }
  }

  /** The two engines agree exactly: the table-driven one decodes a stream if and only if the other does and
      every compressed block has that room; and then to the same bytes and the same end. */
  lemma {:induction false} EnginesAgree(input: seq<u8>, p: nat, out: seq<u8>)
    ensures var fast, safe := MemberFrom(input, p, out), SafeFrom(input, p, out);
      && (fast.Ok? <==> safe.Some? && Room(input, p))
      && (fast.Ok? ==> safe == Some(fast.value))
    decreases 8 * |input| - p
  {
    hide StreamBlock, SafeBlockAt, Apply, LastSafeCode, Val;
    BlockEnds(input, p, out);
    SafeBlockFacts(input, p);
    StreamIsSafe(input, p, out);
    var b := SafeBlockAt(input, p);
    if b.Block? && Apply(out, b.tokens).Some? && !b.final {
      EnginesAgree(input, b.end, Apply(out, b.tokens).value);
    }
  }

  /** Eight bytes behind the stream, as a gzip trailer is, are room enough. */
  lemma {:induction false} TrailerIsRoom(input: seq<u8>, p: nat, out: seq<u8>)
    requires var s := SafeFrom(input, p, out); s.Some? && s.value.1 + 48 <= 8 * |input|
    ensures Room(input, p)
    decreases 8 * |input| - p
  {
    hide SafeBlockAt, Apply, LastSafeCode, Val;
    SafeBlockFacts(input, p);
    LastSafeCodeBefore(input, p);
    var b := SafeBlockAt(input, p);
    if !b.final {
      SafeEnds(input, b.end, Apply(out, b.tokens).value);
      TrailerIsRoom(input, b.end, Apply(out, b.tokens).value);
    }
  }

  lemma LastSafeCodeBefore(input: seq<u8>, p: nat)
    ensures var s := SafeBlockAt(input, p);
      s.Block? && Val(input, p + 1, 2) != 0 ==> LastSafeCode(input, p) < s.end
  {
    hide Val, SafeHeaderAt, RunFrom, LastCode, StoredFrom, FixedLit, FixedDist;
    LastCodeBefore(FixedLit(), FixedDist(), input, p + 3);
    var h := SafeHeaderAt(input, p + 3);
    if h.Some? { LastCodeBefore(h.value.lit, h.value.dist, input, h.value.end); }
  }

  lemma {:induction false} SafeEnds(input: seq<u8>, p: nat, out: seq<u8>)
    ensures var s := SafeFrom(input, p, out); s.Some? ==> p < s.value.1 <= 8 * |input|
    decreases 8 * |input| - p
  {
    hide SafeBlockAt, Apply;
    SafeBlockFacts(input, p);
    var b := SafeBlockAt(input, p);
    if b.Block? && Apply(out, b.tokens).Some? && !b.final { SafeEnds(input, b.end, Apply(out, b.tokens).value); }
  }

  // At the very end of the input they differ

  lemma {:induction false} MsbZero(l: nat)
    ensures Msb(0, l) == 0
  {
    if l > 0 {
      BitZero(l - 1);
      MsbZero(l - 1);
    }
  }

  /** Seven zero bits are the end-of-block code of the fixed blocks. */
  lemma FixedEnd()
    ensures Sym(FixedLit(), 0) == 256 && FixedLit()[256] == 7
  {
    FixedSizes();
    FixedFirst(7);
    FixedLitCount(7, 256);
    MsbZero(7);
    SymIs(FixedLit(), 256, 0);
  }

  /** An empty fixed block that ends with the input: the table-driven decoder wants 48 bits and reports
      the end of input, the other decodes it. */
  lemma ShortInput()
    ensures var input: seq<u8> := [3, 0];
      && MemberFrom(input, 0, []) == Err(UnexpectedEof)
      && SafeFrom(input, 0, []) == Some(([], 10))
  {
    var input: seq<u8> := [3, 0];
    hide FixedLit, FixedDist, Sym;
    ThreeBits(input);
    BlockFacts(input, 0);
    FixedEnd();
    assert StepAt(FixedLit(), FixedDist(), input, 3) == EndOfBlock(10);
    assert RunFrom(FixedLit(), FixedDist(), input, 3) == Run([], Done(10));
    assert SafeBlockAt(input, 0) == Block([], true, 10);
    assert SymbolsFrom(FixedLit(), FixedDist(), input, 3, []) == Err(UnexpectedEof);
  }

  lemma ThreeBits(input: seq<u8>)
    requires input == [3, 0]
    ensures Val(input, 0, 1) == 1 && Val(input, 1, 2) == 1 && Val(input, 3, 15) == 0
  {
    hide StreamBit;
    forall q: nat ensures StreamBit(input, q) <==> q < 2 { BitsOfThree(input, q); }
    ZerosVal(input, 3, 15);
    assert Val(input, 1, 0) == 0 && Val(input, 3, 0) == 0;
    assert Val(input, 2, 1) == 0;
  }

  lemma BitsOfThree(input: seq<u8>, q: nat)
    requires input == [3, 0]
    ensures StreamBit(input, q) <==> q < 2
  {
    BitZero(q % 8);
    assert Pow2(2) == 4;
    if q % 8 >= 2 { SmallBits(3, 2, q % 8); }
    assert Bit(3, 0) && Bit(3, 1);
  }
}
