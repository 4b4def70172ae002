/** A file whose marker positions do not fit 32 bits: one member of one byte and a run behind it, which a
    chunk that begins with the run resolves to wrong bytes (deflate/speculative.rs). */
module LongFile {
  import opened Words
  import opened BitStream
  import opened Tables
  import opened Lz77
  import opened Deflate
  import opened Speculative
  import opened Walk
  import opened Workers
  import opened GzipHeader
  import opened Written
  import opened ComesBack
  import StreamIsSerial
  import CrossMember
  import SafeInflate
  import F = Format

  // The file

  /** n matches of length 258 and distance 1: symbol 285 and distance symbol 0, without extra bits. */
  function RunSymbols(n: nat): (ss: seq<F.Symbol>)
    ensures |ss| == n
  {
    seq(n, _ => F.Match(285, 0, 0, 0))
  }

  /** A stored block with the byte 7, filled up by five bits, and a fixed block with the run. */
  function Blocks(n: nat): (bs: seq<F.Block>)
    ensures |bs| == 2
  {
    [F.Stored([false, false, false, false, false], [7]), F.Fixed(RunSymbols(n))]
  }

  lemma RunMeans(n: nat)
    ensures F.CanWriteAll(F.FixedLiterals(), F.FixedDistances(), RunSymbols(n))
    ensures F.Meanings(RunSymbols(n)) == LongRun(n)
  {
    hide F.FixedLiterals, F.FixedDistances;
    RunSymbolCan();
    assert forall i | 0 <= i < n :: RunSymbols(n)[i] == F.Match(285, 0, 0, 0);
  }

  lemma RunSymbolCan()
    ensures F.HasCode(F.FixedLiterals(), 256)
    ensures F.CanWrite(F.FixedLiterals(), F.FixedDistances(), F.Match(285, 0, 0, 0))
    ensures F.Meaning(F.Match(285, 0, 0, 0)) == Copy(MAX_LENGTH, 1)
  {
  }

  /** The blocks can stand at the start of a stream; the second one begins at bit 48. */
  lemma BlocksCan(n: nat)
    ensures F.AreBlocks(Blocks(n), 0) && F.IsBlock(Blocks(n)[0], 0)
    ensures var b := F.BlockBits(Blocks(n)[0], false, 0);
      && |b| == 48 && F.IsBlock(Blocks(n)[1], 48)
      && F.BlocksBits(Blocks(n), 0) == b + F.BlockBits(Blocks(n)[1], true, 48)
    ensures F.Tokens(Blocks(n)[0], 0) == [Lit(7)] && F.Tokens(Blocks(n)[1], 48) == LongRun(n)
  {
    hide F.FixedLiterals, F.FixedDistances, F.SymbolsBits, F.CanWriteAll, F.Meanings, F.Num;
    RunMeans(n);
    var bs := Blocks(n);
    BytesSize([7]);
    assert F.IsBlock(bs[0], 0) && |F.BlockBits(bs[0], false, 0)| == 48;
    assert bs[1..] == [bs[1]];
    assert F.AreBlocks(bs[1..], 48);
    assert F.Tokens(bs[0], 0) == [Lit(7)];
  }

  ghost function RunBits(n: nat): F.Bits {
    BlocksCan(n);
    F.BlocksBits(Blocks(n), 0)
  }

  /** The body of the file: the blocks, filled up with zeros, and any trailer. */
  ghost function Body(n: nat, trailer: seq<u8>): seq<u8> {
    F.FilledUp(RunBits(n), seq(F.ToByte(|RunBits(n)|), _ => false)) + trailer
  }

  /** What the walks see of such a file. */
  ghost predicate IsLong(src: Source, n: nat) {
    && Forward(src) && src.bits >= 48 && src.block(0) == Block([Lit(7)], false, 48)
    && var run := src.block(48);
       run.Block? && run.tokens == LongRun(n) && run.final && src.trailer(run.end).LastMember?
  }

  /** The decoders find the two blocks and the trailer. */
  lemma LongFileIs(n: nat, trailer: seq<u8>)
    requires |trailer| == 8
    ensures IsLong(SourceOf(Body(n, trailer), HeaderLength), n)
  {
    hide Shows, F.IsBlock, F.AreBlocks, F.BlockBits, F.BlocksBits, F.Tokens, F.Packed, SafeInflate.SafeBlockAt, BlockAt,
      TrailerAt, Forward, LongRun, Blocks;
    BlocksCan(n);
    var bits := RunBits(n);
    var fill := seq(F.ToByte(|bits|), _ => false);
    var body := Body(n, trailer);
    var all := bits + fill;
    assert body[0..0 + |all| / 8] == F.Packed(all);
    PackedShows(body, 0, all);
    ShowsCat(body, 0, bits, fill);
    var first, second := F.BlockBits(Blocks(n)[0], false, 0), F.BlockBits(Blocks(n)[1], true, 48);
    ShowsCat(body, 0, first, second);
    BlockRead(body, 0, Blocks(n)[0], false);
    BlockRead(body, 48, Blocks(n)[1], true);
    HeaderHasRoom(body, 0);
    HeaderHasRoom(body, 48);
    var end := 48 + |second|;
    assert Aligned(end) / 8 + 8 == |body|;
    StreamIsSerial.TrailerCases(body, end);
  }

  function Sevens(m: nat): (s: seq<u8>)
    ensures |s| == m
  {
    seq(m, _ => 7)
  }

  lemma RunOfSevens(n: nat)
    ensures Blind([], LongRun(n)) == Marked(MAX_LENGTH * n)
    ensures Resolvable(Marked(MAX_LENGTH * n), 1) && Resolved(Marked(MAX_LENGTH * n), [7]) == Sevens(MAX_LENGTH * n)
    ensures Apply([7], LongRun(n)) == Some(Sevens(1 + MAX_LENGTH * n))
  {
    hide Blind, Apply;
    assert Marked(0) == [];
    RunIsMarked(0, n);
    SpeculationIsSound(LongRun(n), [7]);
    assert [7] + Sevens(MAX_LENGTH * n) == Sevens(1 + MAX_LENGTH * n);
  }

  lemma SerialOf(src: Source, ts: seq<Token>, p: nat, end: nat, out: seq<u8>)
    requires Forward(src) && src.block(0) == Block([Lit(7)], false, p) && src.block(p) == Block(ts, true, end)
    requires src.trailer(end).LastMember? && Apply([], [Lit(7)]) == Some([7]) && Apply([7], ts) == Some(out)
    ensures Serial(src).Finished? && Serial(src).out == out
  {
    hide Forward, Apply;
    assert [7][0..] == [7] && [7][..0] + out == out;
    var rest := SerialFrom(src, p, [7], 0, [], true);
    assert rest.Finished? && rest.out == out;
    var none: seq<u8> := [];
    assert none[0..] == none && none[..0] + [7] == [7];
  }

  lemma ChunksOf(src: Source, ts: seq<Token>, p: nat, end: nat)
    requires Forward(src) && src.block(0) == Block([Lit(7)], false, p) && src.block(p) == Block(ts, true, end)
    requires src.trailer(end).LastMember? && Blind([], [Lit(7)]) == [Byte(7)] && 0 < p <= src.bits
    ensures ChunkAt(src, 0, p) == Chunk([Byte(7)], [], false, p)
    ensures var c := ChunkAt(src, p, src.bits + 1); c.Chunk? && c.cells == Blind([], ts)
  {
    hide Forward, Blind;
    assert ChunkFrom(src, p, p, true, [Byte(7)], []) == Chunk([Byte(7)], [], false, p);
  }

  /** It is well formed, and its second block is a run of marks to a chunk that begins there. */
  lemma LongDecodes(src: Source, n: nat)
    requires IsLong(src, n)
    ensures Serial(src).Finished? && Serial(src).out == Sevens(1 + MAX_LENGTH * n)
    ensures var a := ChunkAt(src, 0, 48); a.Chunk? && !a.final && a.end == 48
    ensures var c := ChunkAt(src, 48, src.bits + 1); c.Chunk? && c.cells == Marked(MAX_LENGTH * n)
  {
    hide Apply, Blind, Forward, Serial, ChunkAt, Sevens, Marked, LongRun;
    RunOfSevens(n);
    CrossMember.Sevens();
    CrossMember.BlindSevens();
    SerialOf(src, LongRun(n), 48, src.block(48).end, Sevens(1 + MAX_LENGTH * n));
    ChunksOf(src, LongRun(n), 48, src.block(48).end);
  }

  /** The serial decode finishes; but guessing the boundary at bit 48, which is a true one, the chain has a
      chunk there for which 32 bits are too few, and whose repair leaves other bytes than the serial ones. */
  ghost predicate RepairedWrongly(src: Source)
    requires Forward(src)
  {
    && Serial(src).Finished? && Plausible(src, [48, src.bits + 1]) && !PositionsFit(src, [48, src.bits + 1])
    && var c := ChunkAt(src, 48, src.bits + 1);
       c.Chunk? && Repaired(c.cells, [7]) != Some(Serial(src).out)
  }

  lemma LongDoesNotFit(src: Source, n: nat)
    requires IsLong(src, n) && 258 * n > 4294967296
    ensures RepairedWrongly(src)
  {
    hide Forward, Serial, ChunkAt, PositionsFit, Repaired, MarksFit, IsLong;
    LongDecodes(src, n);
    var cells := Marked(MAX_LENGTH * n);
    MarkedUnfit(MAX_LENGTH * n);
    assert Forward(src) by { LongForward(src, n); }
    SecondUnfit(src, 48, [48, src.bits + 1]);
    StaysZero(cells, POS_LIMIT);
    assert Sevens(1 + MAX_LENGTH * n)[1 + POS_LIMIT] == 7;
  }

  lemma LongForward(src: Source, n: nat)
    requires IsLong(src, n)
    ensures Forward(src)
  {
  }

  lemma MarkedUnfit(m: nat)
    requires m > POS_LIMIT
    ensures Marked(m)[POS_LIMIT].Mark? && !MarksFit(Marked(m))
  {
  }

  /** Well-formed files of this kind exist, from about 27 megabytes on, whatever their trailers say. */
  lemma LongFileDoesNotFit(n: nat, trailer: seq<u8>)
    requires 258 * n > 4294967296 && |trailer| == 8
    ensures RepairedWrongly(SourceOf(Body(n, trailer), HeaderLength))
  {
    hide Forward, RepairedWrongly, IsLong, Body;
    LongFileIs(n, trailer);
    LongDoesNotFit(SourceOf(Body(n, trailer), HeaderLength), n);
  }

  lemma SecondUnfit(src: Source, p: nat, hints: seq<nat>)
    requires Forward(src) && |hints| == 2 && hints[0] == p
    requires var a := ChunkAt(src, 0, p); a.Chunk? && !a.final && a.end == p
    requires var b := ChunkAt(src, p, hints[1]); b.Chunk? && !MarksFit(b.cells)
    ensures !PositionsFit(src, hints)
  {
    hide Forward, ChunkAt, MarksFit;
    assert AnchorAt(src, hints, 0) == Some(0);
    assert AnchorAt(src, hints, 1) == Some(p);
  }

  lemma StaysZero(cells: seq<Cell>, i: nat)
    requires POS_LIMIT <= i < |cells| && cells[i].Mark?
    ensures var r := Repaired(cells, [7]); r.Some? ==> 1 + i < |r.value| && r.value[1 + i] == 0
  {
    hide PatchAll, MarksOf;
    MarksBelowLimit(cells);
    PatchKeeps(Lower(cells), MarksOf(cells), [7], i);
  }
}
