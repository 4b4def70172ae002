/** The workers and stage A of the parallel decoder (pipeline.rs): what one chunk decode answers, and
    the chain that accepts or repeats it. */
module Workers {
  import opened Words
  import opened BitStream
  import opened Tables
  import opened Lz77
  import opened Deflate
  import opened Kernels
  import opened Blocks
  import opened Speculative
  import opened U16Window
  import opened SpeculativeDecode
  import opened Walk
  import opened Chain
  import opened Digest

  // The body as a source

  /** The gzip header parser: the length of the header at the start of the bytes, or a refusal. */
  type HeaderParser = seq<u8> -> Option<nat>

  /** A 32-bit little-endian field of a trailer. */
  function Word32(body: seq<u8>, t: nat): nat
    requires t + 4 <= |body|
  {
    var b0: int, b1: int, b2: int, b3: int := body[t], body[t + 1], body[t + 2], body[t + 3];
    b0 + 0x100 * b1 + 0x1_0000 * b2 + 0x100_0000 * b3
  }

  /** What stands after a final block that ends at bit e. */
  function TrailerAt(body: seq<u8>, hdr: HeaderParser, e: nat): Trailer {
    var t := Aligned(e) / 8;
    if t + 8 > |body| then NoTrailer
    else
      var crc, isize := Word32(body, t), Word32(body, t + 4);
      if t + 8 >= |body| then LastMember(crc, isize, 8 * (t + 8))
      else match hdr(body[t + 8..])
        case None => NoTrailer
        case Some(n) => if t + 8 + n > |body| then NoTrailer else NextMember(crc, isize, 8 * (t + 8 + n))
  }

  ghost function SourceOf(body: seq<u8>, hdr: HeaderParser): (src: Source)
    ensures Forward(src) && src.bits == 8 * |body|
    ensures forall p: nat :: src.block(p) == BlockAt(body, p) && src.trailer(p) == TrailerAt(body, hdr, p)
  {
    hide BlockAt, Word32;
    var src := Source((p: nat) => BlockAt(body, p), (p: nat) => TrailerAt(body, hdr, p), 8 * |body|);
    assert forall p: nat :: BlockForward(src, p) by {
      forall p: nat ensures BlockForward(src, p) { BlockFacts(body, p); }
    }
    src
  }

  /** A trailer is 64 bits long. */
  lemma TrailerRoom(body: seq<u8>, hdr: HeaderParser, e: nat)
    ensures !TrailerAt(body, hdr, e).NoTrailer? ==> e + 64 <= 8 * |body|
  {
  }

  // A chunk as a sequence of stretches

  lemma ChunkBlockConcat(cells: seq<Cell>, first: bool, a: seq<Token>, b: seq<Token>)
    ensures ChunkBlock(cells, first, a + b) ==
      match ChunkBlock(cells, first, a) { case None => None case Some(next) => ChunkBlock(next, first, b) }
  {
    if first {
      BlindAppend(cells, a, b);
    } else {
      ApplyAppend(Lower(cells), a, b);
      var mid := Apply(Lower(cells), a);
      if mid.Some? {
        MemberGrows(Lower(cells), a);
        MemberGrows(mid.value, b);
        LowerAsCells(cells, mid.value);
        var end := Apply(mid.value, b);
        if end.Some? {
          MemberGrows(Lower(cells), a + b);
          assert end.value[..|mid.value|] == mid.value;
          assert cells + AsCells(mid.value[|cells|..]) + AsCells(end.value[|mid.value|..])
              == cells + AsCells(end.value[|cells|..]);
        }
      }
    }
  }

  lemma LowerAsCells(cells: seq<Cell>, out: seq<u8>)
    requires |cells| <= |out| && out[..|cells|] == Lower(cells)
    ensures Lower(cells + AsCells(out[|cells|..])) == out
  {
    forall i | 0 <= i < |out| ensures Lower(cells + AsCells(out[|cells|..]))[i] == out[i] {
      if i < |cells| { assert out[..|cells|][i] == Lower(cells)[i]; }
    }
  }

  /** What follows a stretch: the chunk's end, or its trailer and perhaps another member. */
  ghost function AfterSegment(src: Source, hint: nat, next: seq<Cell>, bounds: seq<Boundary>, final: bool, end: nat)
      : ChunkResult
    requires Forward(src)
  {
    if !final then Chunk(next, bounds, false, end)
    else match src.trailer(end)
      case NoTrailer => ChunkErr
      case LastMember(crc, isize, e) => Chunk(next, bounds + [Boundary(|next|, crc, isize)], true, e)
      case NextMember(crc, isize, q) =>
        ChunkFrom(src, q, hint, false, next, bounds + [Boundary(|next|, crc, isize)])
  }

  /** A chunk decode goes stretch by stretch. */
  lemma {:induction false} ChunkBySegment(body: seq<u8>, hdr: HeaderParser, p: nat, hint: nat, first: bool,
                                          cells: seq<Cell>, bounds: seq<Boundary>)
    requires p < hint
    ensures ChunkFrom(SourceOf(body, hdr), p, hint, first, cells, bounds) ==
      match SegmentAt(body, p, hint) {
        case BadSegment => ChunkErr
        case Segment(ts, final, end) =>
          match ChunkBlock(cells, first, ts) {
            case None => ChunkErr
            case Some(next) => AfterSegment(SourceOf(body, hdr), hint, next, bounds, final, end)
          }
      }
    decreases 8 * |body| - p
  {
    hide BlockAt, ChunkBlock, TrailerAt, Forward, SourceOf;
    var src := SourceOf(body, hdr);
    BlockFacts(body, p);
    var b := BlockAt(body, p);
    assert src.block(p) == b;
    if b.Block? {
      var next := ChunkBlock(cells, first, b.tokens);
      if !b.final && b.end < hint {
        var s := SegmentAt(body, b.end, hint);
        if s.Segment? { ChunkBlockConcat(cells, first, b.tokens, s.tokens); }
        if next.Some? { ChunkBySegment(body, hdr, b.end, hint, first, next.value, bounds); }
      } else if next.Some? {
        ChunkStops(src, b.end, hint, first, next.value, bounds, b.final);
      }
    }
  }

  lemma ChunkStops(src: Source, end: nat, hint: nat, first: bool, next: seq<Cell>, bounds: seq<Boundary>, final: bool)
    requires Forward(src) && (!final ==> end >= hint)
    ensures !final ==> ChunkFrom(src, end, hint, first, next, bounds) == Chunk(next, bounds, false, end)
  {
  }

  // Decoding one chunk

  /** A later member's stretch: blocks through the preloaded byte loop, after the chunk's bytes
      (`decode_member_u8_preload`). */
  method DecodeMember(body: seq<u8>, start: nat, hint: nat, out0: seq<u8>)
      returns (r: Result<(nat, bool)>, out: seq<u8>)
    ensures var s := SegmentAt(body, start, hint);
      match r
      case Ok((end, final)) =>
        s.Segment? && s.end == end && s.final == final && Apply(out0, s.tokens) == Some(out)
      case Err(_) => s.BadSegment? || !SegmentRoom(body, start, hint) || Apply(out0, s.tokens).None?
  {
    hide BlockAt, Apply, Agrees, SegmentRoom, StreamBlock, BlockRoom;
    out := out0;
    var br := new BitReader(body);
    var seek := br.SeekToBit(start);
    if seek.Err? {
      SegmentPastEnd(body, start, hint);
      return Err(UnexpectedEof), out;
    }
    ghost var whole := SegmentAt(body, start, hint);
    MemberStart(body, start, hint, out0);
    while true
      invariant br.Valid() && br.input == body
      invariant AheadMember(whole, body, br.TellBit(), hint, out0, out)
      invariant SegmentRoom(body, start, hint) ==> SegmentRoom(body, br.TellBit(), hint)
      decreases 8 * |body| - br.TellBit()
    {
      hide AheadMember, SegmentAt;
      MemberStep(whole, body, br.TellBit(), hint, out0, out);
      BlockFacts(body, br.TellBit());
      StreamExactly(body, br.TellBit(), out);
      var final;
      final, out := DecodeOneBlock(br, out, true);
      if final.Err? {
        return Err(final.error), out;
      }
      if final.value || br.TellBit() >= hint {
        return Ok((br.TellBit(), final.value)), out;
      }
    }
  }

  /** The rest of a stretch, seen from p with `out` so far, is the rest of the whole. */
  ghost predicate AheadMember(whole: Segment, body: seq<u8>, p: nat, hint: nat, out0: seq<u8>, out: seq<u8>) {
    match SegmentAt(body, p, hint)
    case BadSegment => whole.BadSegment?
    case Segment(ts, final, end) =>
      whole.Segment? && whole.final == final && whole.end == end && Apply(out, ts) == Apply(out0, whole.tokens)
  }

  lemma MemberStart(body: seq<u8>, p: nat, hint: nat, out: seq<u8>)
    ensures AheadMember(SegmentAt(body, p, hint), body, p, hint, out, out)
  {
  }

  lemma MemberStep(whole: Segment, body: seq<u8>, p: nat, hint: nat, out0: seq<u8>, out: seq<u8>)
    requires AheadMember(whole, body, p, hint, out0, out)
    ensures var b := BlockAt(body, p);
      && (b.BadBlock? ==> whole.BadSegment?)
      && (b.Block? && SegmentRoom(body, p, hint) ==>
            BlockRoom(body, p) && (b.final || b.end >= hint || SegmentRoom(body, b.end, hint)))
      && (b.Block? && Apply(out, b.tokens).None? ==> whole.BadSegment? || Apply(out0, whole.tokens).None?)
      && (b.Block? && (b.final || b.end >= hint) ==>
            && whole.Segment? && whole.final == b.final && whole.end == b.end
            && Apply(out, b.tokens) == Apply(out0, whole.tokens))
      && (b.Block? && !b.final && b.end < hint && Apply(out, b.tokens).Some? ==>
            AheadMember(whole, body, b.end, hint, out0, Apply(out, b.tokens).value))
  {
    hide BlockAt, Apply, BlockRoom;
    BlockFacts(body, p);
    var b := BlockAt(body, p);
    if b.Block? && !b.final && b.end < hint {
      var s := SegmentAt(body, b.end, hint);
      if s.Segment? { ApplyAppend(out, b.tokens, s.tokens); }
    }
  }

  /** One stretch of a chunk: the first member's into 16-bit cells, a later member's into bytes. */
  method DecodeStretch(body: seq<u8>, pos: nat, hint: nat, first: bool, chunk: SpeculativeChunk, scratch: array<u16>)
      returns (r: Result<(nat, bool)>)
    requires chunk.Valid() && scratch.Length == U16_BUFCAP && (first ==> chunk.cells == [])
    modifies chunk, scratch
    ensures var s := SegmentAt(body, pos, hint);
      match r
      case Ok((end, final)) =>
        && s.Segment? && s.end == end && s.final == final
        && chunk.Valid() && ChunkBlock(old(chunk.cells), first, s.tokens) == Some(chunk.cells)
      case Err(_) =>
        s.BadSegment? || !SegmentRoom(body, pos, hint) || ChunkBlock(old(chunk.cells), first, s.tokens).None?
  {
    hide SegmentAt, Apply, Blind, MarksOf, SegmentRoom;
    ghost var cells, s := chunk.cells, SegmentAt(body, pos, hint);
    if first {
      r := DecodeUntilU16(body, pos, hint, chunk, scratch);
      if s.Segment? { assert cells + Blind([], s.tokens) == Blind(cells, s.tokens); }
    } else {
      var out;
      r, out := DecodeMember(body, pos, hint, chunk.bytes);
      if r.Ok? {
        MemberGrows(chunk.bytes, s.tokens);
        LowerAsCells(cells, out);
        chunk.Extend(out, cells + AsCells(out[|cells|..]));
      }
    }
  }

  /** After a final block: align, read the trailer, and move on to the next member's first block or to
      the end of the body. */
  method ReadTrailer(br: BitReader, hdr: HeaderParser) returns (t: Trailer)
    requires br.Valid()
    modifies br
    ensures br.Valid() && t == TrailerAt(br.input, hdr, old(br.TellBit()))
    ensures t.NextMember? ==> br.TellBit() == t.first
    ensures t.LastMember? ==> br.TellBit() == t.end
  {
    hide Agrees, Word32, Aligned;
    br.ByteAlign();
    AlignedIs(old(br.TellBit()), br.TellBit());
    var trailer := br.TellBit() / 8;
    var body := br.input;
    if trailer + 8 > |body| {
      return NoTrailer;
    }
    var crc, isize := Word32(body, trailer), Word32(body, trailer + 4);
    var after := trailer + 8;
    if after >= |body| {
      var _ := br.SeekToBit(8 * after);
      return LastMember(crc, isize, 8 * after);
    }
    var len := hdr(body[after..]);
    if len.None? {
      return NoTrailer;
    }
    var seek := br.SeekToBit(8 * (after + len.value));
    t := if seek.Err? then NoTrailer else NextMember(crc, isize, 8 * (after + len.value));
  }

  datatype WorkResult = WorkResult(chunk: SpeculativeChunk, bounds: seq<Boundary>, final: bool, end: nat)

  /** What a result stands for. */
  ghost function ChunkOf(w: WorkResult): ChunkResult
    reads w.chunk
  {
    Chunk(w.chunk.cells, w.bounds, w.final, w.end)
  }

  /** The result is the chunk. */
  ghost predicate Holds(c: ChunkResult, w: WorkResult)
    reads w.chunk
  {
    w.chunk.Valid() && c == ChunkOf(w)
  }

  /** All blocks of the chunk from p on have 48 bits from their last symbol on. */
  ghost predicate ChunkRoom(body: seq<u8>, hdr: HeaderParser, p: nat, hint: nat)
    decreases 8 * |body| - p
  {
    if p >= hint then true
    else
      SegmentFacts(body, p, hint);
      TrailerFacts(body, hdr, SegmentAt(body, p, hint));
      && SegmentRoom(body, p, hint)
      && match NextChunkMember(body, hdr, SegmentAt(body, p, hint))
         case None => true
         case Some(q) => ChunkRoom(body, hdr, q, hint)
  }

  /** Where the member after a stretch begins, if there is one. */
  function NextChunkMember(body: seq<u8>, hdr: HeaderParser, s: Segment): Option<nat> {
    if s.Segment? && s.final && TrailerAt(body, hdr, s.end).NextMember? then Some(TrailerAt(body, hdr, s.end).first)
    else None
  }

  lemma TrailerFacts(body: seq<u8>, hdr: HeaderParser, s: Segment)
    ensures var q := NextChunkMember(body, hdr, s); q.Some? ==> s.end < q.value <= 8 * |body|
  {
    hide Word32;
  }

  /** A chunk decode's answer against what the chunk should be. */
  ghost predicate Honest(body: seq<u8>, hdr: HeaderParser, p: nat, hint: nat, r: Result<WorkResult>)
    reads if r.Ok? then {r.value.chunk} else {}
  {
    match r
    case Ok(w) => Holds(ChunkAt(SourceOf(body, hdr), p, hint), w)
    case Err(_) => ChunkAt(SourceOf(body, hdr), p, hint).ChunkErr? || !ChunkRoom(body, hdr, p, hint)
  }

  /** One turn of the chunk loop: a stretch, and the trailer when it ended a member. Answers whether to
      go on, the boundaries so far, and whether the body is used up. */
  method DecodeTurn(body: seq<u8>, hdr: HeaderParser, br: BitReader, hint: nat, first: bool, chunk: SpeculativeChunk,
                    bounds: seq<Boundary>, scratch: array<u16>)
      returns (r: Result<(bool, seq<Boundary>, bool)>)
    requires br.Valid() && br.input == body && br.TellBit() < hint
    requires chunk.Valid() && scratch.Length == U16_BUFCAP && (first ==> chunk.cells == [])
    modifies br, chunk, scratch
    ensures var src := SourceOf(body, hdr);
      var c := ChunkFrom(src, old(br.TellBit()), hint, first, old(chunk.cells), bounds);
      match r
      case Ok((more, bs, final)) =>
        && br.Valid() && chunk.Valid() && old(br.TellBit()) < br.TellBit() <= 8 * |body|
        && c == (if more then ChunkFrom(src, br.TellBit(), hint, false, chunk.cells, bs)
                 else Chunk(chunk.cells, bs, final, br.TellBit()))
        && (more && ChunkRoom(body, hdr, old(br.TellBit()), hint) ==> ChunkRoom(body, hdr, br.TellBit(), hint))
      case Err(_) => c.ChunkErr? || !ChunkRoom(body, hdr, old(br.TellBit()), hint)
  {
    hide SegmentAt, SegmentRoom, TrailerAt, Forward, SourceOf, ChunkBlock, Agrees, MarksOf, Lower, ChunkFrom;
    ghost var src := SourceOf(body, hdr);
    var p := br.TellBit();
    ghost var seg := SegmentAt(body, p, hint);
    ChunkBySegment(body, hdr, p, hint, first, chunk.cells, bounds);
    SegmentFacts(body, p, hint);
    var s := DecodeStretch(body, p, hint, first, chunk, scratch);
    if s.Err? {
      return Err(s.error);
    }
    TrailerForwardAt(src, seg.end);
    var _ := br.SeekToBit(s.value.0);
    if !s.value.1 {
      return Ok((false, bounds, false));
    }
    var t := ReadTrailer(br, hdr);
    if t.NoTrailer? {
      return Err(Invalid);
    }
    LowerLength(chunk.cells);
    r := Ok((t.NextMember?, bounds + [Boundary(|chunk.bytes|, t.crc, t.isize)], t.LastMember?));
  }

  /** `decode_one_chunk`: from `start`, block after block and member after member, until the position
      reaches `hint` or the body is used up. */
  method DecodeOneChunk(body: seq<u8>, hdr: HeaderParser, start: nat, hint: nat, scratch: array<u16>)
      returns (r: Result<WorkResult>)
    requires scratch.Length == U16_BUFCAP
    modifies scratch
    ensures r.Ok? ==> fresh(r.value.chunk)
    ensures start <= 8 * |body| ==> Honest(body, hdr, start, hint, r)
    ensures start > 8 * |body| ==> r.Err?
  {
    hide TrailerAt, Forward, SourceOf, ChunkBlock, Agrees, MarksOf, Lower, ChunkFrom, ChunkRoom;
    ghost var src := SourceOf(body, hdr);
    var br := new BitReader(body);
    var seek := br.SeekToBit(start);
    if seek.Err? { return Err(UnexpectedEof); }
    var chunk := new SpeculativeChunk();
    var bounds: seq<Boundary> := [];
    var first := true;
    while br.TellBit() < hint
      invariant br.Valid() && br.input == body && chunk.Valid() && fresh(chunk) && fresh(br)
      invariant first ==> chunk.cells == []
      invariant ChunkFrom(src, br.TellBit(), hint, first, chunk.cells, bounds) == ChunkAt(src, start, hint)
      invariant ChunkRoom(body, hdr, start, hint) ==> ChunkRoom(body, hdr, br.TellBit(), hint)
      decreases 8 * |body| - br.TellBit()
    {
      var turn := DecodeTurn(body, hdr, br, hint, first, chunk, bounds, scratch);
      if turn.Err? {
        return Err(turn.error);
      }
      first := false;
      bounds := turn.value.1;
      if !turn.value.0 {
        return Ok(WorkResult(chunk, bounds, turn.value.2, br.TellBit()));
      }
    }
    ChunkStops(src, br.TellBit(), hint, first, chunk.cells, bounds, false);
    r := Ok(WorkResult(chunk, bounds, false, br.TellBit()));
  }

  // Stage A

  /** A worker's message: which chunk, where it was started, its hint, and what came of it. */
  datatype WorkOutcome = WorkOutcome(id: nat, start: nat, hint: nat, result: Result<WorkResult>)

  /** The message as a value. */
  datatype Report = Report(id: nat, start: nat, hint: nat, result: Result<ChunkResult>)

  ghost function ReportOf(o: WorkOutcome): Report
    reads if o.result.Ok? then {o.result.value.chunk} else {}
  {
    Report(o.id, o.start, o.hint,
           match o.result case Ok(w) => Ok(ChunkOf(w)) case Err(e) => Err(e))
  }

  /** Whatever a worker reports as decoded is what a decode from its own start gives. Its start may be
      any guess, and it may report an error for any reason. */
  ghost predicate GenuineReport(src: Source, hints: seq<nat>, o: Report)
    requires Forward(src)
  {
    && o.id < |hints| && o.hint == hints[o.id]
    && (o.result.Ok? ==> o.start <= src.bits && ChunkAt(src, o.start, o.hint) == o.result.value)
  }

  ghost predicate Genuine(src: Source, hints: seq<nat>, o: WorkOutcome)
    requires Forward(src)
    reads if o.result.Ok? then {o.result.value.chunk} else {}
  {
    GenuineReport(src, hints, ReportOf(o)) && (o.result.Ok? ==> o.result.value.chunk.Valid())
  }

  /** A worker's turn: decode the item it has taken, and report. */
  method DecodeItem(body: seq<u8>, hdr: HeaderParser, ghost hints: seq<nat>, id: nat, start: nat, hint: nat,
                    scratch: array<u16>)
      returns (o: WorkOutcome)
    requires scratch.Length == U16_BUFCAP && id < |hints| && hint == hints[id]
    modifies scratch
    ensures o.id == id && o.start == start && o.hint == hint && Genuine(SourceOf(body, hdr), hints, o)
    ensures start <= 8 * |body| ==> Honest(body, hdr, start, hint, o.result)
    ensures start > 8 * |body| ==> o.result.Err?
    ensures o.result.Ok? ==> fresh(o.result.value.chunk)
  {
    hide Forward, SourceOf, ChunkFrom, MarksOf, Lower;
    var r := DecodeOneChunk(body, hdr, start, hint, scratch);
    o := WorkOutcome(id, start, hint, r);
  }

  /** Where chunk k begins, going by the ends of the chunks before it; nowhere after one that fails to
      decode or is the last. */
  ghost function AnchorAt(src: Source, hints: seq<nat>, k: nat): Option<nat>
    requires Forward(src) && k <= |hints|
    decreases k
  {
    if k == 0 then Some(0)
    else match AnchorAt(src, hints, k - 1)
      case None => None
      case Some(p) =>
        match ChunkAt(src, p, hints[k - 1])
        case Chunk(_, _, false, end) => Some(end)
        case _ => None
  }

  /** No chunk of the chain has a mark at a position 32 bits do not hold. */
  ghost predicate PositionsFit(src: Source, hints: seq<nat>)
    requires Forward(src)
  {
    forall k: nat | k < |hints| && AnchorAt(src, hints, k).Some? ::
      var c := ChunkAt(src, AnchorAt(src, hints, k).value, hints[k]); c.Chunk? ==> MarksFit(c.cells)
  }

  /** What stage A hands to the resolvers. */
  datatype Job = Job(id: nat, chunk: SpeculativeChunk, prevTail: seq<u8>, final: bool, bounds: seq<Boundary>)

  /** The job as a value. */
  datatype Task = Task(id: nat, cells: seq<Cell>, prevTail: seq<u8>, final: bool, bounds: seq<Boundary>)

  ghost function TaskOf(j: Job): Task
    reads j.chunk
  {
    Task(j.id, j.chunk.cells, j.prevTail, j.final, j.bounds)
  }

  /** The task is the chunk the chain has at its place, with the tail of everything before it. */
  ghost predicate RightTask(src: Source, hints: seq<nat>, t: Task)
    requires Forward(src)
  {
    && t.id < |hints| && MarksFit(t.cells) && Ordered(t.bounds, |t.cells|)
    && var s := ChainTo(src, hints, t.id);
       s.Running? ==> ChunkIs(ChunkAt(src, s.p, hints[t.id]), t.cells, t.bounds, t.final) && t.prevTail == Tail(s.out)
  }

  ghost predicate RightJob(src: Source, hints: seq<nat>, j: Job)
    requires Forward(src)
    reads j.chunk
  {
    j.chunk.Valid() && RightTask(src, hints, TaskOf(j))
  }

  predicate ChunkIs(c: ChunkResult, cells: seq<Cell>, bounds: seq<Boundary>, final: bool) {
    c.Chunk? && c.cells == cells && c.bounds == bounds && c.final == final
  }

  /** Stage A's own state before chunk k: in a run that has not failed, where the chain is. */
  ghost predicate Anchored(src: Source, hints: seq<nat>, k: nat, expected: nat, prevTail: seq<u8>)
    requires Forward(src) && k <= |hints|
  {
    && expected <= src.bits && AnchorAt(src, hints, k) == Some(expected)
    && match ChainTo(src, hints, k)
       case Running(p, out, _) => p == expected && prevTail == Tail(out)
       case Over(r) => r == Failed
  }

  /** What stage A may make of chunk k, standing where the chain stands with the tail before it: the right
      task, and its new position and tail; or an error the whole decode then ends in. */
  ghost predicate StageAnswers(src: Source, hints: seq<nat>, k: nat, prevTail: seq<u8>,
                               r: Result<(Task, nat, seq<u8>)>)
    requires Forward(src) && k < |hints|
  {
    match r
    case Ok((t, end, tail)) =>
      && t.id == k && t.prevTail == prevTail && RightTask(src, hints, t)
      && (t.final || Anchored(src, hints, k + 1, end, tail))
    case Err(_) => Pipeline(src, hints) == Failed
  }

  /** An accepted result, as the task it becomes, and where stage A stands after it. */
  ghost function Accepted(k: nat, prevTail: seq<u8>, r: Result<(WorkResult, seq<u8>)>): Result<(Task, nat, seq<u8>)>
    reads if r.Ok? then {r.value.0.chunk} else {}
  {
    match r
    case Ok((w, tail)) => Ok((TaskOf(Job(k, w.chunk, prevTail, w.final, w.bounds)), w.end, tail))
    case Err(e) => Err(e)
  }

  /** Stage A on the next chunk in order: take the worker's result if it began exactly where the chain
      stands, otherwise decode again from there; then carry the tail on. */
  method AcceptOutcome(body: seq<u8>, hdr: HeaderParser, ghost hints: seq<nat>, o: WorkOutcome, expected: nat,
                       prevTail: seq<u8>, scratch: array<u16>)
      returns (r: Result<(WorkResult, seq<u8>)>)
    requires scratch.Length == U16_BUFCAP && PositionsFit(SourceOf(body, hdr), hints)
    requires Genuine(SourceOf(body, hdr), hints, o)
    requires Anchored(SourceOf(body, hdr), hints, o.id, expected, prevTail)
    modifies scratch
    ensures o.id < |hints|
    ensures r.Ok? ==>
      fresh(r.value.0.chunk) || (o.result.Ok? && r.value.0.chunk == o.result.value.chunk)
    ensures StageAnswers(SourceOf(body, hdr), hints, o.id, prevTail, Accepted(o.id, prevTail, r))
    ensures r.Ok? ==> r.value.0.chunk.Valid()
  {
    hide Forward, SourceOf, ChunkFrom, ChainFrom, Tail, Resolvable, Resolved, Shift, Lower, MarksOf;
    ghost var src := SourceOf(body, hdr);
    var res := o.result;
    if res.Err? || o.start != expected {
      res := DecodeOneChunk(body, hdr, expected, o.hint, scratch);
    }
    if res.Err? {
      ChainGivesUp(body, hdr, hints, o.id, expected, prevTail, res);
      return Err(Invalid);
    }
    var w := res.value;
    var tail := w.chunk.BuildPrevTail(prevTail);
    ghost var c := ChunkAt(src, expected, hints[o.id]);
    ChunkOrdered(src, expected, hints[o.id], true, [], []);
    if !c.final { ChainGoesOn(src, hints, o.id, expected, prevTail, tail, c); }
    r := Ok((w, tail));
  }

  /** A chunk short of room fails, or ends, not final, too late for any trailer. */
  lemma {:induction false} CrampedIsLate(body: seq<u8>, hdr: HeaderParser, p: nat, hint: nat, first: bool,
                                         cells: seq<Cell>, bounds: seq<Boundary>)
    requires !ChunkRoom(body, hdr, p, hint)
    ensures var c := ChunkFrom(SourceOf(body, hdr), p, hint, first, cells, bounds);
      c.ChunkErr? || (!c.final && c.end + 64 > 8 * |body|)
    decreases 8 * |body| - p
  {
    hide SegmentAt, SegmentRoom, TrailerAt, Forward, SourceOf, ChunkBlock, ChunkFrom;
    ChunkBySegment(body, hdr, p, hint, first, cells, bounds);
    SegmentFacts(body, p, hint);
    var s := SegmentAt(body, p, hint);
    TrailerFacts(body, hdr, s);
    if !SegmentRoom(body, p, hint) { CrampedEnds(body, p, hint); }
    if s.Segment? {
      TrailerRoom(body, hdr, s.end);
      var next := ChunkBlock(cells, first, s.tokens);
      var q := NextChunkMember(body, hdr, s);
      if next.Some? && q.Some? && SegmentRoom(body, p, hint) {
        var t := TrailerAt(body, hdr, s.end);
        CrampedIsLate(body, hdr, q.value, hint, false, next.value, bounds + [Boundary(|next.value|, t.crc, t.isize)]);
      }
    }
  }

  lemma ChainGivesUp(body: seq<u8>, hdr: HeaderParser, hints: seq<nat>, k: nat, expected: nat, prevTail: seq<u8>,
                     res: Result<WorkResult>)
    requires k < |hints| && Anchored(SourceOf(body, hdr), hints, k, expected, prevTail)
    requires res.Err? && Honest(body, hdr, expected, hints[k], res)
    ensures Pipeline(SourceOf(body, hdr), hints) == Failed
  {
    hide Forward, ChunkFrom, ChainFrom, TrailerAt;
    var src := SourceOf(body, hdr);
    ChainToIs(src, hints, k);
    forall e: nat ensures src.trailer(e).NoTrailer? || e + 64 <= src.bits { TrailerRoom(body, hdr, e); }
    if !ChunkRoom(body, hdr, expected, hints[k]) { CrampedIsLate(body, hdr, expected, hints[k], true, [], []); }
    if ChainTo(src, hints, k).Running? { LateFailure(src, hints, k); }
  }

  lemma ChainGoesOn(src: Source, hints: seq<nat>, k: nat, expected: nat, prevTail: seq<u8>, tail: seq<u8>,
                    c: ChunkResult)
    requires Forward(src) && k < |hints| && Anchored(src, hints, k, expected, prevTail)
    requires c == ChunkAt(src, expected, hints[k]) && c.Chunk? && !c.final
    requires Resolvable(c.cells, |prevTail|) && |prevTail| <= MAX_DISTANCE ==>
      tail == Tail(prevTail + Resolved(c.cells, prevTail))
    ensures Anchored(src, hints, k + 1, c.end, tail)
  {
    hide Forward, ChunkFrom, Tail, Resolvable, Resolved, Shift;
    ChunkEnds(src, expected, hints[k], true, [], []);
    var s := ChainTo(src, hints, k);
    if s.Running? && Resolvable(c.cells, |prevTail|) {
      TailOfTail(s.out, Resolved(c.cells, prevTail));
    }
  }

  /** The jobs so far: one for each chunk, in order. */
  ghost predicate RightJobs(src: Source, hints: seq<nat>, jobs: seq<Job>)
    requires Forward(src)
    reads set j | j in jobs :: j.chunk
  {
    forall i | 0 <= i < |jobs| :: jobs[i].id == i && RightJob(src, hints, jobs[i])
  }

  /** The messages, with nobody writing to the chunks in them. */
  ghost predicate AllGenuine(src: Source, hints: seq<nat>, arrivals: seq<WorkOutcome>)
    requires Forward(src)
    reads set i | 0 <= i < |arrivals| && arrivals[i].result.Ok? :: arrivals[i].result.value.chunk
  {
    forall i | 0 <= i < |arrivals| :: Genuine(src, hints, arrivals[i])
  }

  /** The next outcome in order becomes the next job. */
  method TakeNext(body: seq<u8>, hdr: HeaderParser, ghost hints: seq<nat>, o: WorkOutcome, expected: nat,
                  prevTail: seq<u8>, jobs0: seq<Job>, scratch: array<u16>, ghost arrivals: seq<WorkOutcome>)
      returns (ok: bool, jobs: seq<Job>, expected': nat, tail: seq<u8>)
    requires scratch.Length == U16_BUFCAP && PositionsFit(SourceOf(body, hdr), hints)
    requires Genuine(SourceOf(body, hdr), hints, o) && o.id == |jobs0|
    requires Anchored(SourceOf(body, hdr), hints, o.id, expected, prevTail)
    requires RightJobs(SourceOf(body, hdr), hints, jobs0) && AllGenuine(SourceOf(body, hdr), hints, arrivals)
    modifies scratch
    ensures o.id < |hints| && AllGenuine(SourceOf(body, hdr), hints, arrivals)
    ensures |jobs| == |jobs0| + if ok then 1 else 0
    ensures RightJobs(SourceOf(body, hdr), hints, jobs)
    ensures !ok ==> Pipeline(SourceOf(body, hdr), hints) == Failed
    ensures ok ==> jobs[o.id].final || Anchored(SourceOf(body, hdr), hints, o.id + 1, expected', tail)
  {
    hide Forward, SourceOf, ChainFrom, RightTask, Anchored, Genuine, PositionsFit;
    jobs, expected', tail := jobs0, expected, prevTail;
    var res := AcceptOutcome(body, hdr, hints, o, expected, prevTail, scratch);
    forall i | 0 <= i < |arrivals| ensures Genuine(SourceOf(body, hdr), hints, arrivals[i]) {
      assert old(Genuine(SourceOf(body, hdr), hints, arrivals[i]));
      assert arrivals[i].result.Ok? ==> unchanged(arrivals[i].result.value.chunk);
    }
    ok := res.Ok?;
    if ok {
      jobs := jobs + [Job(o.id, res.value.0.chunk, prevTail, res.value.0.final, res.value.0.bounds)];
      expected', tail := res.value.0.end, res.value.1;
    }
  }

  lemma GenuineAt(src: Source, hints: seq<nat>, arrivals: seq<WorkOutcome>, i: nat)
    requires Forward(src) && AllGenuine(src, hints, arrivals) && i < |arrivals|
    ensures Genuine(src, hints, arrivals[i])
  {
  }

  datatype StageEnd = Complete | DecodeFailed | ChannelClosed

  /** The reorder map holds what has arrived and is not yet taken. */
  ghost predicate Waiting(reorder: map<nat, WorkOutcome>, arrivals: seq<WorkOutcome>, received: nat, nextId: nat) {
    && received <= |arrivals|
    && (forall id | id in reorder :: reorder[id].id == id && reorder[id] in arrivals)
    && (forall i | 0 <= i < received :: arrivals[i].id < nextId || arrivals[i].id in reorder)
  }

  lemma WaitingNone(arrivals: seq<WorkOutcome>)
    ensures Waiting(map[], arrivals, 0, 0)
  {
  }

  lemma WaitingTake(reorder: map<nat, WorkOutcome>, arrivals: seq<WorkOutcome>, received: nat, nextId: nat)
      returns (i: nat)
    requires Waiting(reorder, arrivals, received, nextId) && nextId in reorder
    ensures Waiting(reorder - {nextId}, arrivals, received, nextId + 1)
    ensures i < |arrivals| && arrivals[i] == reorder[nextId] && reorder[nextId].id == nextId
  {
    i :| 0 <= i < |arrivals| && arrivals[i] == reorder[nextId];
  }

  lemma WaitingMore(reorder: map<nat, WorkOutcome>, arrivals: seq<WorkOutcome>, received: nat, nextId: nat)
    requires Waiting(reorder, arrivals, received, nextId)
    ensures received < |arrivals| ==>
      Waiting(reorder[arrivals[received].id := arrivals[received]], arrivals, received + 1, nextId)
    ensures received == |arrivals| && nextId !in reorder ==>
      forall i | 0 <= i < |arrivals| :: arrivals[i].id != nextId
  {
  }

  /** Stage A's loop: outcomes arrive in any order, wait in the reorder map, and are taken by id. Jobs
      come out in id order, each with the chunk and tail the chain has there. */
  method StageA(body: seq<u8>, hdr: HeaderParser, hints: seq<nat>, arrivals: seq<WorkOutcome>, scratch: array<u16>)
      returns (jobs: seq<Job>, end: StageEnd)
    requires scratch.Length == U16_BUFCAP && PositionsFit(SourceOf(body, hdr), hints) && hints != []
    requires AllGenuine(SourceOf(body, hdr), hints, arrivals)
    modifies scratch
    ensures RightJobs(SourceOf(body, hdr), hints, jobs)
    ensures match end
      case DecodeFailed => Pipeline(SourceOf(body, hdr), hints) == Failed
      case ChannelClosed => |jobs| == |hints| || forall i | 0 <= i < |arrivals| :: arrivals[i].id != |jobs|
      case Complete => |jobs| > 0 && (|jobs| == |hints| || jobs[|jobs| - 1].final)
  {
    hide *;
    ghost var src := SourceOf(body, hdr);
    jobs := [];
    var reorder: map<nat, WorkOutcome> := map[];
    var nextId, expected, prevTail, received := 0, 0, [], 0;
    AnchoredAtStart(src, hints);
    NoJobs(src, hints);
    WaitingNone(arrivals);
    while nextId < |hints|
      invariant |jobs| == nextId <= |hints| && received <= |arrivals|
      invariant Anchored(src, hints, nextId, expected, prevTail)
      invariant RightJobs(src, hints, jobs)
      invariant Waiting(reorder, arrivals, received, nextId) && AllGenuine(src, hints, arrivals)
      decreases |hints| - nextId, |arrivals| - received
    {
      ghost var entered := nextId;
      while nextId in reorder
        invariant entered <= |jobs| == nextId <= |hints|
        invariant Anchored(src, hints, nextId, expected, prevTail)
        invariant RightJobs(src, hints, jobs)
        invariant Waiting(reorder, arrivals, received, nextId) && AllGenuine(src, hints, arrivals)
        decreases |reorder|
      {
        var o := reorder[nextId];
        ghost var i := WaitingTake(reorder, arrivals, received, nextId);
        GenuineAt(src, hints, arrivals, i);
        reorder := reorder - {nextId};
        var ok;
        ok, jobs, expected, prevTail := TakeNext(body, hdr, hints, o, expected, prevTail, jobs, scratch, arrivals);
        if !ok {
          return jobs, DecodeFailed;
        }
        nextId := nextId + 1;
        if jobs[|jobs| - 1].final {
          return jobs, Complete;
        }
      }
      WaitingMore(reorder, arrivals, received, nextId);
      if received == |arrivals| {
        return jobs, ChannelClosed;
      }
      reorder := reorder[arrivals[received].id := arrivals[received]];
      received := received + 1;
    }
    end := Complete;
  }

  lemma NoJobs(src: Source, hints: seq<nat>)
    requires Forward(src)
    ensures RightJobs(src, hints, [])
  {
  }

  lemma AnchoredAtStart(src: Source, hints: seq<nat>)
    requires Forward(src)
    ensures Anchored(src, hints, 0, 0, [])
  {
  }
}
