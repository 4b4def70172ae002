/** Speculative decode of a stretch of blocks (`decode_until_u16`, deflate/fast_inflate.rs): the 16-bit
    window first, then, once the window is free of markers, the byte loop. */
module SpeculativeDecode {
  import opened Words
  import opened BitStream
  import opened Tables
  import opened Huffman
  import opened Lz77
  import opened Deflate
  import opened Kernels
  import opened Blocks
  import opened Speculative
  import opened U16Window
  import opened U16Kernel

  // The stretch, as a function of the bits

  datatype Segment = Segment(tokens: seq<Token>, final: bool, end: nat) | BadSegment

  /** Blocks from p on, up to a final block or the first block end at or past `hint`. */
  ghost function SegmentAt(input: seq<u8>, p: nat, hint: nat): Segment
    decreases 8 * |input| - p
  {
    BlockFacts(input, p);
    match BlockAt(input, p)
    case BadBlock => BadSegment
    case Block(ts, final, end) =>
      if final || end >= hint then Segment(ts, final, end)
      else match SegmentAt(input, end, hint)
        case BadSegment => BadSegment
        case Segment(more, final', end') => Segment(ts + more, final', end')
  }

  lemma {:induction false} SegmentFacts(input: seq<u8>, p: nat, hint: nat)
    ensures var s := SegmentAt(input, p, hint);
      s.Segment? ==> ValidTokens(s.tokens) && p < s.end <= 8 * |input| && (s.final || s.end >= hint)
    decreases 8 * |input| - p
  {
    hide BlockAt, ValidToken;
    BlockFacts(input, p);
    var b := BlockAt(input, p);
    if b.Block? && !b.final && b.end < hint {
      SegmentFacts(input, b.end, hint);
      var s := SegmentAt(input, b.end, hint);
      if s.Segment? { ValidConcat(b.tokens, s.tokens); }
    }
  }

  lemma ValidConcat(a: seq<Token>, b: seq<Token>)
    requires ValidTokens(a) && ValidTokens(b)
    ensures ValidTokens(a + b)
  {
    forall i | 0 <= i < |a + b| ensures ValidToken((a + b)[i]) {
      if i < |a| { assert ValidToken(a[i]); } else { assert ValidToken(b[i - |a|]); }
    }
  }

  // Hand-off

  /** A full window without markers. */
  ghost predicate TailFree(cells: seq<Cell>) {
    && |cells| >= MAX_DISTANCE
    && forall i | |cells| - MAX_DISTANCE <= i < |cells| :: cells[i].Byte?
  }

  ghost predicate BytesFrom(cells: seq<Cell>, k: nat) {
    forall i | k <= i < |cells| :: cells[i].Byte?
  }

  lemma LowerAppend(cells: seq<Cell>, c: Cell)
    ensures Lower(cells + [c]) == Lower(cells) + [LowByte(c)]
  {
  }

  /** A byte copy behind a marker-free window does what the cell copy does, whatever placeholders
      stand further back. */
  lemma {:induction false} HandOffCopy(pre: seq<u8>, cells: seq<Cell>, d: nat, n: nat)
    requires TailFree(cells) && 0 < d <= MAX_DISTANCE
    ensures |BlindCopy(cells, d, n)| == |cells| + n
    ensures TailFree(BlindCopy(cells, d, n))
    ensures BlindCopy(cells, d, n)[..|cells|] == cells && BytesFrom(BlindCopy(cells, d, n), |cells|)
    ensures CopyBack(pre + Lower(cells), d, n) == pre + Lower(BlindCopy(cells, d, n))
    decreases n
  {
    if n > 0 {
      var c := cells[|cells| - d];
      var next := cells + [c];
      var out := pre + Lower(cells);
      LowerAppend(cells, c);
      assert out[|out| - d] == LowByte(c);
      assert out + [LowByte(c)] == pre + Lower(next);
      HandOffCopy(pre, next, d, n - 1);
      var r := BlindCopy(cells, d, n);
      assert r[..|cells|] == r[..|next|][..|cells|];
      assert r[|cells|] == r[..|next|][|cells|];
    }
  }

  /** Once the window is free of markers no later copy ever reads one: the byte decoder and the cell
      decoder go on to the same bytes, and no further marker appears. */
  lemma {:induction false} HandOff(pre: seq<u8>, cells: seq<Cell>, ts: seq<Token>)
    requires TailFree(cells) && ValidTokens(ts)
    ensures TailFree(Blind(cells, ts))
    ensures |Blind(cells, ts)| >= |cells| && Blind(cells, ts)[..|cells|] == cells
    ensures BytesFrom(Blind(cells, ts), |cells|)
    ensures Apply(pre + Lower(cells), ts) == Some(pre + Lower(Blind(cells, ts)))
    decreases |ts|
  {
    if ts != [] {
      assert ValidToken(ts[0]);
      var next := BlindOne(cells, ts[0]);
      match ts[0] {
        case Lit(b) =>
          LowerAppend(cells, Byte(b));
          assert pre + Lower(cells) + [b] == pre + Lower(next);
        case Copy(len, dist) =>
          HandOffCopy(pre, cells, dist, len);
      }
      HandOff(pre, next, ts[1..]);
      var r := Blind(cells, ts);
      assert r[..|cells|] == r[..|next|][..|cells|];
      forall i | |cells| <= i < |r| ensures r[i].Byte? {
        if i < |next| { assert r[..|next|][i] == next[i]; }
      }
    }
  }

  // Blocks through the window

  /** What the window decoder may answer for the block at p: a success is the block decoded blind, and a
      well-formed block with 48 bits from its last symbol on is one. */
  ghost predicate BlockAnswersCells(input: seq<u8>, p: nat, cells0: seq<Cell>, r: Result<bool>, cells: seq<Cell>,
                                    pos: nat)
  {
    var b := BlockAt(input, p);
    match r
    case Ok(final) => b.Block? && b.final == final && b.end == pos && cells == Blind(cells0, b.tokens)
    case Err(_) => b.BadBlock? || !BlockRoom(input, p)
  }

  /** All blocks of the stretch from p on have that room. */
  ghost predicate SegmentRoom(input: seq<u8>, p: nat, hint: nat)
    decreases 8 * |input| - p
  {
    BlockFacts(input, p);
    match BlockAt(input, p)
    case BadBlock => true
    case Block(_, final, end) => BlockRoom(input, p) && (final || end >= hint || SegmentRoom(input, end, hint))
  }

  /** A stretch that is short of room ends within 48 bits of the end of the input. */
  lemma {:induction false} CrampedEnds(input: seq<u8>, p: nat, hint: nat)
    requires !SegmentRoom(input, p, hint)
    ensures var s := SegmentAt(input, p, hint); s.Segment? ==> s.end + 48 > 8 * |input|
    decreases 8 * |input| - p
  {
    hide BlockAt, BlockRoom, Apply;
    BlockFacts(input, p);
    StreamExactly(input, p, []);
    var b := BlockAt(input, p);
    if b.Block? && !b.final && b.end < hint {
      SegmentFacts(input, b.end, hint);
      if BlockRoom(input, p) { CrampedEnds(input, b.end, hint); }
    }
  }

  lemma StoredStepCells(cells: seq<Cell>, input: seq<u8>, p: nat, n: nat)
    requires n > 0
    ensures Blind(cells, StoredFrom(input, p, n))
         == Blind(cells + [Byte(ByteAt(input, p))], StoredFrom(input, p + 8, n - 1))
  {
    var ts := StoredFrom(input, p, n);
    assert ts[1..] == StoredFrom(input, p + 8, n - 1);
  }

  /** A stored block through the window, flushing between pieces that fit. */
  method DecodeStoredU16(br: BitReader, w: Window) returns (r: Result<()>)
    requires br.Valid() && w.Valid()
    modifies br, w, w.scratch, w.chunk
    ensures br.Valid() && (r.Ok? ==> br.bits <= 63)
    ensures w.Valid() && w.start == old(w.start)
    ensures w.chunk.cells[..w.start] == old(w.chunk.cells[..w.start])
    ensures var a := Aligned(old(br.TellBit()));
      var len := Val(br.input, a, 16);
      if a + 32 > 8 * |br.input| then r == Err(UnexpectedEof)
      else if len + Val(br.input, a + 16, 16) != 0xFFFF then r == Err(Invalid)
      else if a + 32 + 8 * len > 8 * |br.input| then r == Err(UnexpectedEof)
      else r == Ok(()) && br.TellBit() == a + 32 + 8 * len
           && w.History() == Blind(old(w.History()), StoredFrom(br.input, a + 32, len))
  {
    hide Agrees, Val, Blind, StoredFrom;
    ghost var cells0 := w.History();
    var len := ReadStoredLength(br);
    if len.Err? { return Err(len.error); }
    ghost var q := br.TellBit();
    var remaining := len.value;
    while remaining > 0
      invariant 0 <= remaining <= len.value
      invariant br.Valid() && br.bits <= 63 && br.TellBit() == q + 8 * (len.value - remaining)
      invariant w.Valid() && w.start == old(w.start)
      invariant w.chunk.cells[..w.start] == old(w.chunk.cells[..w.start])
      invariant Blind(w.History(), StoredFrom(br.input, br.TellBit(), remaining))
             == Blind(cells0, StoredFrom(br.input, q, len.value))
    {
      if w.cur >= U16_FLUSH_AT {
        w.Flush();
      }
      var take := if remaining < U16_FLUSH_AT - w.cur then remaining else U16_FLUSH_AT - w.cur;
      var ok := StoredPiece(br, w, take, remaining);
      if !ok {
        return Err(UnexpectedEof);
      }
      remaining := remaining - take;
    }
    StoredNone(w.History(), br.input, br.TellBit());
    r := Ok(());
  }

  lemma StoredNone(cells: seq<Cell>, input: seq<u8>, p: nat)
    ensures Blind(cells, StoredFrom(input, p, 0)) == cells
  {
  }

  /** `take` bytes of a stored block that has `remaining` left; false at the end of the input. */
  method StoredPiece(br: BitReader, w: Window, take: nat, ghost remaining: nat) returns (ok: bool)
    requires br.Valid() && br.bits <= 63 && w.Valid() && w.cur + take <= U16_FLUSH_AT && take <= remaining
    modifies br, w`cur, w.scratch
    ensures br.Valid() && w.Valid()
    ensures ok <==> old(br.TellBit()) + 8 * take <= 8 * |br.input|
    ensures ok ==> br.bits <= 63 && br.TellBit() == old(br.TellBit()) + 8 * take
    ensures ok ==>
      Blind(w.History(), StoredFrom(br.input, br.TellBit(), remaining - take)) ==
      Blind(old(w.History()), StoredFrom(br.input, old(br.TellBit()), remaining))
  {
    hide Agrees, Val, Blind, StoredFrom;
    ghost var cells0, q := w.History(), br.TellBit();
    var k := 0;
    while k < take
      invariant 0 <= k <= take
      invariant br.Valid() && br.bits <= 63 && br.TellBit() == q + 8 * k
      invariant w.Valid() && w.cur + (take - k) <= U16_FLUSH_AT
      invariant Blind(w.History(), StoredFrom(br.input, q + 8 * k, remaining - k))
             == Blind(cells0, StoredFrom(br.input, q, remaining))
    {
      StoredStepCells(w.History(), br.input, br.TellBit(), remaining - k);
      ValBoundEight(br.input, br.TellBit());
      ByteAtIs(br.input, br.TellBit());
      var b := br.Read(8);
      if b.Err? { return false; }
      LiteralCell(b.value);
      w.Push(b.value);
      k := k + 1;
    }
    ok := true;
  }

  lemma ByteAtIs(input: seq<u8>, p: nat)
    ensures ByteAt(input, p) == Val(input, p, 8)
  {
  }

  /** The symbols of a compressed block, through the window. */
  method DecodeBodyU16(br: BitReader, w: Window, btype: nat) returns (r: Result<()>)
    requires br.Valid() && br.bits <= 63 && w.Valid() && (btype == 1 || btype == 2)
    modifies br, w, w.scratch, w.chunk
    ensures br.Valid() && (r.Ok? ==> br.bits <= 63)
    ensures w.Valid() && w.start == old(w.start)
    ensures w.chunk.cells[..w.start] == old(w.chunk.cells[..w.start])
    ensures var run := BodyAt(br.input, old(br.TellBit()), btype);
      if r.Ok? then run.end == Done(br.TellBit()) && w.History() == Blind(old(w.History()), run.tokens)
      else run.end.Done? ==> LastCodeAt(br.input, old(br.TellBit()), btype) + NEEDED > 8 * |br.input|
  {
    hide Agrees, Val, RunFrom, Blind, HeaderAt, FixedLit, FixedDist, CellsFrom, LastCode;
    var lit, dist;
    r, lit, dist := BlockDecoders(br, btype);
    if r.Ok? {
      CellsAreFair(lit.lengths, dist.lengths, br.input, br.TellBit(), br.bytePos, w.cur, w.History());
      r := DecodeCompressedU16(br, w, lit, dist);
    }
  }

  method DecodeBlockU16(br: BitReader, w: Window) returns (r: Result<bool>)
    requires br.Valid() && w.Valid()
    modifies br, w, w.scratch, w.chunk
    ensures br.Valid() && (r.Ok? ==> br.bits <= 63)
    ensures w.Valid() && w.start == old(w.start)
    ensures w.chunk.cells[..w.start] == old(w.chunk.cells[..w.start])
    ensures BlockAnswersCells(br.input, old(br.TellBit()), old(w.History()), r, w.History(), br.TellBit())
  {
    hide Agrees, Val, Blind, BodyAt, StoredFrom, LastCodeAt;
    var bfinal := br.Read(1);
    if bfinal.Err? { return Err(UnexpectedEof); }
    var btype := br.Read(2);
    if btype.Err? { return Err(UnexpectedEof); }
    var u: Result<()> := Err(Invalid);
    if btype.value == 0 {
      u := DecodeStoredU16(br, w);
    } else if btype.value <= 2 {
      u := DecodeBodyU16(br, w, btype.value);
    }
    r := if u.Ok? then Ok(bfinal.value != 0) else Err(u.error);
  }

  // The whole stretch

  /** The rest of a stretch seen from position p with history `cells` is the rest of the whole. */
  ghost predicate AheadSegment(whole: Segment, input: seq<u8>, p: nat, hint: nat, cells: seq<Cell>) {
    match SegmentAt(input, p, hint)
    case BadSegment => whole.BadSegment?
    case Segment(ts, final, end) =>
      whole.Segment? && whole.final == final && whole.end == end && Blind(cells, ts) == Blind([], whole.tokens)
  }

  /** What the block at p leads to. */
  lemma SegmentStep(whole: Segment, input: seq<u8>, p: nat, hint: nat, cells: seq<Cell>)
    requires AheadSegment(whole, input, p, hint, cells)
    ensures var b := BlockAt(input, p);
      && (b.BadBlock? ==> whole.BadSegment?)
      && (b.Block? ==> ValidTokens(b.tokens))
      && (b.Block? && SegmentRoom(input, p, hint) ==>
            BlockRoom(input, p) && (b.final || b.end >= hint || SegmentRoom(input, b.end, hint)))
      && (b.Block? && (b.final || b.end >= hint) ==>
            && whole.Segment? && whole.final == b.final && whole.end == b.end
            && Blind(cells, b.tokens) == Blind([], whole.tokens))
      && (b.Block? && !b.final && b.end < hint ==>
            AheadSegment(whole, input, b.end, hint, Blind(cells, b.tokens)))
  {
    hide BlockAt, Blind, ValidTokens, BlockRoom;
    BlockFacts(input, p);
    var b := BlockAt(input, p);
    if b.Block? && !b.final && b.end < hint {
      var s := SegmentAt(input, b.end, hint);
      if s.Segment? { BlindAppend(cells, b.tokens, s.tokens); }
    }
  }

  /** Whether the last 32 Ki cells of the window carry no marker. */
  method WindowFree(w: Window) returns (free: bool)
    requires w.Valid() && w.cur >= U16_HANDOFF_AT
    ensures free <==> TailFree(w.History())
  {
    ghost var before := |w.chunk.cells[w.start..]|;
    var i := w.cur - U16_WINDOW;
    while i < w.cur
      invariant w.cur - U16_WINDOW <= i <= w.cur
      invariant forall j | w.cur - U16_WINDOW <= j < i :: w.scratch[j] < MARKER16
    {
      if w.scratch[i] >= MARKER16 {
        assert w.History()[before + i] == DecodeCell(w.scratch[i]);
        return false;
      }
      i := i + 1;
    }
    assert |w.History()| == before + w.cur;
    forall k | |w.History()| - MAX_DISTANCE <= k < |w.History()| ensures w.History()[k].Byte? {
      assert w.History()[k] == DecodeCell(w.scratch[k - before]);
    }
    free := true;
  }

  /** The first phase: blocks through the window, until the stretch ends (`done`) or the window is free
      of markers. */
  method SpeculativePhase(br: BitReader, w: Window, hint: nat, ghost whole: Segment)
      returns (r: Result<bool>, done: bool)
    requires br.Valid() && w.Valid()
    requires AheadSegment(whole, br.input, br.TellBit(), hint, w.History())
    modifies br, w, w.scratch, w.chunk
    ensures br.Valid() && w.Valid() && w.start == old(w.start)
    ensures w.chunk.cells[..w.start] == old(w.chunk.cells[..w.start])
    ensures r.Err? ==> whole.BadSegment? || !old(SegmentRoom(br.input, br.TellBit(), hint))
    ensures r.Ok? && !done ==>
      old(SegmentRoom(br.input, br.TellBit(), hint)) ==> SegmentRoom(br.input, br.TellBit(), hint)
    ensures r.Ok? && done ==>
      && whole.Segment? && whole.end == br.TellBit() && whole.final == r.value
      && w.History() == Blind([], whole.tokens)
    ensures r.Ok? && !done ==>
      TailFree(w.History()) && AheadSegment(whole, br.input, br.TellBit(), hint, w.History())
  {
    hide SegmentAt, AheadSegment, BlockAt, Blind, Agrees, TailFree, SegmentRoom, BlockRoom;
    while true
      invariant br.Valid() && w.Valid() && w.start == old(w.start)
      invariant w.chunk.cells[..w.start] == old(w.chunk.cells[..w.start])
      invariant old(SegmentRoom(br.input, br.TellBit(), hint)) ==> SegmentRoom(br.input, br.TellBit(), hint)
      invariant AheadSegment(whole, br.input, br.TellBit(), hint, w.History())
      decreases 8 * |br.input| - br.TellBit()
    {
      SegmentStep(whole, br.input, br.TellBit(), hint, w.History());
      BlockFacts(br.input, br.TellBit());
      r := DecodeBlockU16(br, w);
      if r.Err? {
        return r, false;
      }
      if r.value || br.TellBit() >= hint {
        return r, true;
      }
      if w.cur >= U16_HANDOFF_AT {
        var free := WindowFree(w);
        if free {
          return r, false;
        }
      }
    }
  }

  /** `decode_until_u16`: blocks through the 16-bit window until the stretch ends or the window is free
      of markers, then blocks through the byte loop. Whatever the phases, the chunk gains the cells
      of the stretch decoded blind. */
  method DecodeUntilU16(input: seq<u8>, start: nat, hint: nat, chunk: SpeculativeChunk, scratch: array<u16>)
      returns (r: Result<(nat, bool)>)
    requires chunk.Valid() && scratch.Length == U16_BUFCAP
    modifies chunk, scratch
    ensures var s := SegmentAt(input, start, hint);
      match r
      case Ok((end, final)) =>
        && s.Segment? && s.end == end && s.final == final
        && chunk.Valid() && chunk.cells == old(chunk.cells) + Blind([], s.tokens)
      case Err(_) => s.BadSegment? || !SegmentRoom(input, start, hint)
  {
    hide SegmentAt, AheadSegment, BlockAt, Blind, Agrees, TailFree, Lower, MarksOf, DecodeCell, SegmentRoom;
    var br := new BitReader(input);
    var seek := br.SeekToBit(start);
    ghost var whole := SegmentAt(input, start, hint);
    if seek.Err? {
      SegmentPastEnd(input, start, hint);
      return Err(UnexpectedEof);
    }
    var w := new Window(chunk, scratch);
    ghost var before := chunk.cells;
    assert chunk.cells[..w.start] == before;
    AheadStart(input, start, hint);
    var final, done := SpeculativePhase(br, w, hint, whole);
    if final.Err? {
      return Err(final.error);
    }
    ghost var history := w.History();
    w.LowerAll();
    if done {
      return Ok((br.TellBit(), final.value));
    }
    r := FinishBytes(br, hint, chunk, before, history, whole);
  }

  lemma AheadStart(input: seq<u8>, start: nat, hint: nat)
    ensures AheadSegment(SegmentAt(input, start, hint), input, start, hint, [])
  {
  }

  lemma SegmentPastEnd(input: seq<u8>, start: nat, hint: nat)
    requires start > 8 * |input|
    ensures SegmentAt(input, start, hint).BadSegment?
  {
  }

  /** The second phase: the byte loop, extending the chunk's bytes in place. */
  method FinishBytes(br: BitReader, hint: nat, chunk: SpeculativeChunk, ghost before: seq<Cell>,
                     ghost history0: seq<Cell>, ghost whole: Segment)
      returns (r: Result<(nat, bool)>)
    requires br.Valid() && chunk.Valid() && chunk.cells == before + history0 && TailFree(history0)
    requires AheadSegment(whole, br.input, br.TellBit(), hint, history0)
    modifies br, chunk
    ensures match r
      case Ok((end, final)) =>
        && whole.Segment? && whole.end == end && whole.final == final
        && chunk.Valid() && chunk.cells == before + Blind([], whole.tokens)
      case Err(_) => whole.BadSegment? || !old(SegmentRoom(br.input, br.TellBit(), hint))
  {
    hide AheadSegment, BlockAt, Blind, Agrees, TailFree, Apply, SegmentRoom, BlockRoom, StreamBlock;
    ghost var history := history0;
    while true
      invariant br.Valid() && chunk.Valid() && chunk.cells == before + history && TailFree(history)
      invariant old(SegmentRoom(br.input, br.TellBit(), hint)) ==> SegmentRoom(br.input, br.TellBit(), hint)
      invariant AheadSegment(whole, br.input, br.TellBit(), hint, history)
      decreases 8 * |br.input| - br.TellBit()
    {
      ghost var b := BlockAt(br.input, br.TellBit());
      SegmentStep(whole, br.input, br.TellBit(), hint, history);
      BlockFacts(br.input, br.TellBit());
      if b.Block? { HandOff(Lower(before), history, b.tokens); }
      LowerConcat(before, history);
      StreamExactly(br.input, br.TellBit(), chunk.bytes);
      var final, out := DecodeOneBlock(br, chunk.bytes, true);
      if final.Err? {
        return Err(final.error);
      }
      ghost var longer := Blind(history, b.tokens);
      LowerConcat(before, longer);
      LongerBytes(before, history, longer);
      chunk.Extend(out, before + longer);
      history := longer;
      if final.value || br.TellBit() >= hint {
        return Ok((br.TellBit(), final.value));
      }
    }
  }

  lemma LowerConcat(a: seq<Cell>, b: seq<Cell>)
    ensures Lower(a + b) == Lower(a) + Lower(b)
  {
  }

  lemma LongerBytes(before: seq<Cell>, history: seq<Cell>, longer: seq<Cell>)
    requires |history| <= |longer| && longer[..|history|] == history && BytesFrom(longer, |history|)
    ensures (before + longer)[..|before + history|] == before + history
    ensures forall i | |before + history| <= i < |before + longer| :: (before + longer)[i].Byte?
  {
  }
}
