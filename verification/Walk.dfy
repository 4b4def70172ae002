/** The stream as stage A and the serial decoder walk it, and why cutting the walk into independently
    decoded chunks changes nothing (pipeline.rs). The finder's guesses are arbitrary here. */
module Walk {
  import opened Words
  import opened Tables
  import opened Lz77
  import opened Deflate
  import opened Speculative
  import opened SpeculativeDecode

  /** What follows a member's last block. */
  datatype Trailer =
    | NoTrailer
    | LastMember(crc: nat, isize: nat, end: nat)
    | NextMember(crc: nat, isize: nat, first: nat)

  /** The compressed body as the walk sees it: the block at a bit, the trailer (and next header) after
      a final block, and the length in bits. */
  datatype Source = Source(block: nat -> Block, trailer: nat -> Trailer, bits: nat)

  /** Positions only move forward and stay inside the body; tokens are what the format can express. */
  ghost predicate Forward(src: Source) {
    && (forall p: nat :: BlockForward(src, p))
    && (forall p: nat :: TrailerForward(src, p))
  }

  ghost predicate BlockForward(src: Source, p: nat) {
    var b := src.block(p);
    b.Block? ==> p < b.end <= src.bits && ValidTokens(b.tokens)
  }

  predicate TrailerForward(src: Source, p: nat) {
    match src.trailer(p)
    case NoTrailer => true
    case LastMember(_, _, end) => p < end <= src.bits
    case NextMember(_, _, first) => p < first <= src.bits
  }

  /** The end of a member in the output, with its trailer's values. */
  datatype Boundary = Boundary(at: nat, crc: nat, isize: nat)

  // Serial

  datatype SerialResult =
    | Finished(out: seq<u8>, bounds: seq<Boundary>)
    | Corrupt
    | Escape

  /** The walk from p with `out` so far and a window beginning at `start`. With `own` each member has
      its own, initially empty, window; otherwise everything put out so far can be copied from. A
      distance that leaves the window is an `Escape`. */
  ghost function SerialFrom(src: Source, p: nat, out: seq<u8>, start: nat, bounds: seq<Boundary>, own: bool)
      : SerialResult
    requires Forward(src) && start <= |out|
    decreases src.bits - p
  {
    assert BlockForward(src, p);
    match src.block(p)
    case BadBlock => Corrupt
    case Block(ts, final, end) =>
      match Apply(out[start..], ts)
      case None => Escape
      case Some(member) =>
        var next := out[..start] + member;
        MemberGrows(out[start..], ts);
        if !final then SerialFrom(src, end, next, start, bounds, own)
        else
          assert TrailerForward(src, end);
          match src.trailer(end)
          case NoTrailer => Corrupt
          case LastMember(crc, isize, _) => Finished(next, bounds + [Boundary(|next|, crc, isize)])
          case NextMember(crc, isize, q) =>
            SerialFrom(src, q, next, if own then |next| else 0, bounds + [Boundary(|next|, crc, isize)], own)
  }

  /** The serial decode: every member with its own window. */
  ghost function Serial(src: Source): SerialResult
    requires Forward(src)
  {
    SerialFrom(src, 0, [], 0, [], true)
  }

  /** The decode that lets a member copy from the members before it. */
  ghost function Lenient(src: Source): SerialResult
    requires Forward(src)
  {
    SerialFrom(src, 0, [], 0, [], false)
  }

  lemma {:induction false} MemberGrows(out: seq<u8>, ts: seq<Token>)
    ensures var r := Apply(out, ts); r.Some? ==> |r.value| >= |out| && r.value[..|out|] == out
    decreases |ts|
  {
    if ts != [] {
      match ApplyOne(out, ts[0]) {
        case None =>
        case Some(next) =>
          if ts[0].Copy? { CopyBackAt(out, ts[0].dist, ts[0].len); }
          assert next[..|out|] == out;
          MemberGrows(next, ts[1..]);
          var r := Apply(out, ts);
          if r.Some? { assert r.value[..|out|] == r.value[..|next|][..|out|]; }
      }
    }
  }

  /** Whether a decode succeeds, and how much it adds, depends only on how much history there is. */
  lemma {:induction false} ApplyLength(a: seq<u8>, b: seq<u8>, ts: seq<Token>)
    requires |a| <= |b|
    ensures Apply(a, ts).Some? ==>
      Apply(b, ts).Some? && |Apply(b, ts).value| - |b| == |Apply(a, ts).value| - |a|
    decreases |ts|
  {
    if ts != [] && ApplyOne(a, ts[0]).Some? {
      if ts[0].Copy? {
        CopyBackAt(a, ts[0].dist, ts[0].len);
        CopyBackAt(b, ts[0].dist, ts[0].len);
      }
      ApplyLength(ApplyOne(a, ts[0]).value, ApplyOne(b, ts[0]).value, ts[1..]);
    }
  }

  /** More history in front does not change a decode that succeeds without it. */
  lemma {:induction false} ApplyBehind(pre: seq<u8>, out: seq<u8>, ts: seq<Token>)
    ensures Apply(out, ts).Some? ==> Apply(pre + out, ts) == Some(pre + Apply(out, ts).value)
    decreases |ts|
  {
    if ts != [] {
      match ApplyOne(out, ts[0]) {
        case None =>
        case Some(next) =>
          if ts[0].Copy? {
            CopyBackPrefix(pre, out, ts[0].dist, ts[0].len);
          } else {
            assert pre + out + [ts[0].b] == pre + next;
          }
          ApplyBehind(pre, next, ts[1..]);
      }
    }
  }

  // One chunk

  datatype ChunkResult =
    | Chunk(cells: seq<Cell>, bounds: seq<Boundary>, final: bool, end: nat)
    | ChunkErr

  function AsCells(bytes: seq<u8>): (r: seq<Cell>)
    ensures |r| == |bytes| && forall i | 0 <= i < |bytes| :: r[i] == Byte(bytes[i])
  {
    seq(|bytes|, i requires 0 <= i < |bytes| => Byte(bytes[i]))
  }

  /** A block's tokens in a chunk: its first member is decoded blind into cells, every later member
      straight into the chunk's bytes, placeholders included. */
  ghost function ChunkBlock(cells: seq<Cell>, first: bool, ts: seq<Token>): Option<seq<Cell>> {
    if first then Some(Blind(cells, ts))
    else match Apply(Lower(cells), ts)
      case None => None
      case Some(out) =>
        MemberGrows(Lower(cells), ts);
        Some(cells + AsCells(out[|cells|..]))
  }

  /** `decode_one_chunk` from p: blocks and members until the position reaches `hint`, or the end. */
  ghost function ChunkFrom(src: Source, p: nat, hint: nat, first: bool, cells: seq<Cell>,
                           bounds: seq<Boundary>): ChunkResult
    requires Forward(src)
    decreases src.bits - p
  {
    assert BlockForward(src, p);
    if p >= hint then Chunk(cells, bounds, false, p)
    else match src.block(p)
      case BadBlock => ChunkErr
      case Block(ts, final, end) =>
        match ChunkBlock(cells, first, ts)
        case None => ChunkErr
        case Some(next) =>
          if !final then ChunkFrom(src, end, hint, first, next, bounds)
          else
            assert TrailerForward(src, end);
            match src.trailer(end)
            case NoTrailer => ChunkErr
            case LastMember(crc, isize, e) => Chunk(next, bounds + [Boundary(|next|, crc, isize)], true, e)
            case NextMember(crc, isize, q) =>
              ChunkFrom(src, q, hint, false, next, bounds + [Boundary(|next|, crc, isize)])
  }

  ghost function ChunkAt(src: Source, p: nat, hint: nat): ChunkResult
    requires Forward(src)
  {
    ChunkFrom(src, p, hint, true, [], [])
  }

  // The chain of chunks

  function Shift(bounds: seq<Boundary>, n: nat): (r: seq<Boundary>)
    ensures |r| == |bounds|
  {
    seq(|bounds|, i requires 0 <= i < |bounds| => bounds[i].(at := bounds[i].at + n))
  }

  lemma ShiftAppend(bounds: seq<Boundary>, b: Boundary, n: nat)
    ensures Shift(bounds + [b], n) == Shift(bounds, n) + [b.(at := b.at + n)]
  {
  }

  datatype PipelineResult = Delivered(out: seq<u8>, bounds: seq<Boundary>) | Failed

  /** Stage A's chain with resolution: chunk i is decoded blind from where chunk i-1 really ended, with
      its own hint, and resolved against the last 32 KiB of everything before it. */
  ghost function ChainFrom(src: Source, hints: seq<nat>, p: nat, out: seq<u8>, bounds: seq<Boundary>)
      : PipelineResult
    requires Forward(src)
    decreases |hints|
  {
    if hints == [] then Failed
    else match ChunkAt(src, p, hints[0])
      case ChunkErr => Failed
      case Chunk(cells, bs, final, end) =>
        if !Resolvable(cells, |Tail(out)|) then Failed
        else
          var out' := out + Resolved(cells, Tail(out));
          var bounds' := bounds + Shift(bs, |out|);
          if final then Delivered(out', bounds') else ChainFrom(src, hints[1..], end, out', bounds')
  }

  ghost function Pipeline(src: Source, hints: seq<nat>): PipelineResult
    requires Forward(src)
  {
    ChainFrom(src, hints, 0, [], [])
  }

  // Lockstep

  /** A chunk state (first, cells, cb) inside the chain at (h, b) corresponds to the serial state
      (out, start, bounds) at the same position. */
  ghost predicate InStep(h: seq<u8>, b: seq<Boundary>, first: bool, cells: seq<Cell>, cb: seq<Boundary>,
                         out: seq<u8>, start: nat, bounds: seq<Boundary>)
  {
    && InWindow(cells) && Resolvable(cells, |h|)
    && out == h + Resolved(cells, h)
    && bounds == b + Shift(cb, |h|)
    && start <= |out|
    && (if first then start <= |h| else start >= |h| && BytesFrom(cells, start - |h|))
  }

  lemma LowerMember(h: seq<u8>, cells: seq<Cell>, start: nat)
    requires Resolvable(cells, |h|) && |h| <= start <= |h| + |cells| && BytesFrom(cells, start - |h|)
    ensures Lower(cells) == Lower(cells)[..start - |h|] + (h + Resolved(cells, h))[start..]
  {
    var out := h + Resolved(cells, h);
    forall i | start - |h| <= i < |cells| ensures Lower(cells)[i] == out[i + |h|] {
    }
  }

  /** One block keeps the two in step. */
  lemma BlockInStep(h: seq<u8>, b: seq<Boundary>, first: bool, cells: seq<Cell>, cb: seq<Boundary>,
                    out: seq<u8>, start: nat, bounds: seq<Boundary>, ts: seq<Token>)
    requires InStep(h, b, first, cells, cb, out, start, bounds) && ValidTokens(ts)
    ensures var member := Apply(out[start..], ts);
      member.Some? ==>
        var r := ChunkBlock(cells, first, ts);
        r.Some? && InStep(h, b, first, r.value, cb, out[..start] + member.value, start, bounds)
  {
    var member := Apply(out[start..], ts);
    if member.Some? {
      MemberGrows(out[start..], ts);
      if first {
        ApplyBehind(out[..start], out[start..], ts);
        assert out[..start] + out[start..] == out;
        BlindResolves(cells, ts, h);
        BlindInWindow(cells, ts);
      } else {
        LaterMemberInStep(h, cells, out, start, ts);
      }
    }
  }

  lemma LaterMemberInStep(h: seq<u8>, cells: seq<Cell>, out: seq<u8>, start: nat, ts: seq<Token>)
    requires InWindow(cells) && Resolvable(cells, |h|) && out == h + Resolved(cells, h)
    requires |h| <= start <= |out| && BytesFrom(cells, start - |h|)
    requires Apply(out[start..], ts).Some?
    ensures var r := ChunkBlock(cells, false, ts);
      && r.Some? && InWindow(r.value) && Resolvable(r.value, |h|)
      && h + Resolved(r.value, h) == out[..start] + Apply(out[start..], ts).value
      && BytesFrom(r.value, start - |h|)
  {
    var member := Apply(out[start..], ts).value;
    var low := Lower(cells);
    LowerMember(h, cells, start);
    ApplyBehind(low[..start - |h|], out[start..], ts);
    var long := low[..start - |h|] + member;
    assert Apply(low, ts) == Some(long);
    MemberGrows(out[start..], ts);
    MemberGrows(low, ts);
    var added := AsCells(long[|cells|..]);
    var r := cells + added;
    assert ChunkBlock(cells, false, ts) == Some(r);
    forall i | 0 <= i < |r| ensures CellReaches(r[i], |h|) && CellReaches(r[i], MAX_DISTANCE) {
      if i < |cells| { assert r[i] == cells[i] && CellReaches(cells[i], |h|) && CellReaches(cells[i], MAX_DISTANCE); }
    }
    assert |h + Resolved(r, h)| == |out[..start] + member|;
    forall i | 0 <= i < |h + Resolved(r, h)| ensures (h + Resolved(r, h))[i] == (out[..start] + member)[i] {
      if |h| <= i < |out| {
        assert r[i - |h|] == cells[i - |h|];
        if i >= start { assert member[..|out| - start][i - start] == out[start..][i - start]; }
      } else if i >= |out| {
        assert r[i - |h|] == Byte(long[i - |h|]);
      }
    }
  }

  lemma InStepStart(h: seq<u8>, b: seq<Boundary>, start: nat)
    requires start <= |h|
    ensures InStep(h, b, true, [], [], h, start, b)
  {
  }

  /** After a member's end the chunk goes on with bytes only. */
  lemma NextInStep(h: seq<u8>, b: seq<Boundary>, first: bool, cells: seq<Cell>, cb: seq<Boundary>,
                   out: seq<u8>, start: nat, bounds: seq<Boundary>, crc: nat, isize: nat)
    requires InStep(h, b, first, cells, cb, out, start, bounds)
    ensures InStep(h, b, false, cells, cb + [Boundary(|cells|, crc, isize)], out, |out|,
                   bounds + [Boundary(|out|, crc, isize)])
  {
    ShiftAppend(cb, Boundary(|cells|, crc, isize), |h|);
  }

  /** A chunk in step with a serial decode that never leaves a member's window either fails with it, or
      ends in step with it: finished together, or both at the chunk's end. */
  lemma {:induction false} ChunkInStep(src: Source, p: nat, hint: nat, first: bool, cells: seq<Cell>, cb: seq<Boundary>,
                                       h: seq<u8>, b: seq<Boundary>, out: seq<u8>, start: nat, bounds: seq<Boundary>)
      returns (next: nat)
    requires Forward(src) && InStep(h, b, first, cells, cb, out, start, bounds)
    requires !SerialFrom(src, p, out, start, bounds, true).Escape?
    ensures var s := SerialFrom(src, p, out, start, bounds, true);
      match ChunkFrom(src, p, hint, first, cells, cb)
      case ChunkErr => s.Corrupt?
      case Chunk(cs, cbs, final, end) =>
        && InWindow(cs) && Resolvable(cs, |h|) && next <= |h| + |cs|
        && s == if final then Finished(h + Resolved(cs, h), b + Shift(cbs, |h|))
                else SerialFrom(src, end, h + Resolved(cs, h), next, b + Shift(cbs, |h|), true)
    decreases src.bits - p
  {
    hide InStep, ChunkBlock, Apply, Forward, ValidTokens, InWindow, Resolvable, Resolved, Shift;
    BlockForwardAt(src, p);
    InStepOpen(h, b, first, cells, cb, out, start, bounds);
    next := start;
    if p < hint {
      var blk := src.block(p);
      if blk.Block? {
        MemberGrows(out[start..], blk.tokens);
        BlockInStep(h, b, first, cells, cb, out, start, bounds, blk.tokens);
        var member := Apply(out[start..], blk.tokens).value;
        var cells' := ChunkBlock(cells, first, blk.tokens).value;
        var out' := out[..start] + member;
        InStepOpen(h, b, first, cells', cb, out', start, bounds);
        if !blk.final {
          next := ChunkInStep(src, blk.end, hint, first, cells', cb, h, b, out', start, bounds);
        } else {
          TrailerForwardAt(src, blk.end);
          match src.trailer(blk.end) {
            case NoTrailer =>
            case LastMember(crc, isize, _) =>
              ShiftAppend(cb, Boundary(|cells'|, crc, isize), |h|);
            case NextMember(crc, isize, q) =>
              NextInStep(h, b, first, cells', cb, out', start, bounds, crc, isize);
              next := ChunkInStep(src, q, hint, false, cells', cb + [Boundary(|cells'|, crc, isize)], h, b,
                                  out', |out'|, bounds + [Boundary(|out'|, crc, isize)]);
          }
        }
      }
    }
  }

  lemma BlockForwardAt(src: Source, p: nat)
    requires Forward(src)
    ensures BlockForward(src, p)
  {
  }

  lemma TrailerForwardAt(src: Source, p: nat)
    requires Forward(src)
    ensures TrailerForward(src, p)
  {
  }

  lemma InStepOpen(h: seq<u8>, b: seq<Boundary>, first: bool, cells: seq<Cell>, cb: seq<Boundary>,
                   out: seq<u8>, start: nat, bounds: seq<Boundary>)
    requires InStep(h, b, first, cells, cb, out, start, bounds)
    ensures InWindow(cells) && Resolvable(cells, |h|) && start <= |out| == |h| + |cells|
    ensures out == h + Resolved(cells, h) && bounds == b + Shift(cb, |h|)
  {
  }

  /** A chunk ends at its hint or finishes. */
  lemma {:induction false} ChunkEnds(src: Source, p: nat, hint: nat, first: bool, cells: seq<Cell>, cb: seq<Boundary>)
    requires Forward(src) && p <= src.bits
    ensures var c := ChunkFrom(src, p, hint, first, cells, cb);
      c.Chunk? ==>
        && |cells| <= |c.cells| && c.cells[..|cells|] == cells
        && p <= c.end <= src.bits && (c.final || c.end >= hint)
    decreases src.bits - p
  {
    hide Apply, Forward, ValidTokens, ChunkBlock;
    BlockForwardAt(src, p);
    var blk := src.block(p);
    if p < hint && blk.Block? {
      var r := ChunkBlock(cells, first, blk.tokens);
      if r.Some? {
        ChunkBlockGrows(cells, first, blk.tokens);
        var t := src.trailer(blk.end);
        if !blk.final {
          ChunkEnds(src, blk.end, hint, first, r.value, cb);
          PrefixPrefix(cells, r.value, ChunkFrom(src, p, hint, first, cells, cb));
        } else {
          TrailerForwardAt(src, blk.end);
          if t.NextMember? {
            ChunkEnds(src, t.first, hint, false, r.value, cb + [Boundary(|r.value|, t.crc, t.isize)]);
            PrefixPrefix(cells, r.value, ChunkFrom(src, p, hint, first, cells, cb));
          }
        }
      }
    }
  }

  lemma PrefixPrefix(a: seq<Cell>, b: seq<Cell>, c: ChunkResult)
    requires |a| <= |b| && b[..|a|] == a
    ensures c.Chunk? && |b| <= |c.cells| && c.cells[..|b|] == b ==> c.cells[..|a|] == a
  {
    if c.Chunk? && |b| <= |c.cells| && c.cells[..|b|] == b {
      assert c.cells[..|a|] == c.cells[..|b|][..|a|];
    }
  }

  lemma ChunkBlockGrows(cells: seq<Cell>, first: bool, ts: seq<Token>)
    ensures var r := ChunkBlock(cells, first, ts);
      r.Some? ==> |cells| <= |r.value| && r.value[..|cells|] == cells
  {
    BlindGrows(cells, ts);
    MemberGrows(Lower(cells), ts);
  }

  /** A list of hints the dispatcher could make: the last one is past the end of the body. */
  ghost predicate Plausible(src: Source, hints: seq<nat>) {
    hints != [] && hints[|hints| - 1] > src.bits
  }

  /** When no distance leaves its member, the chain of chunks gives what the serial decode gives. */
  lemma {:induction false} ChainInStep(src: Source, hints: seq<nat>, p: nat, out: seq<u8>, start: nat,
                                       bounds: seq<Boundary>)
    requires Forward(src) && Plausible(src, hints) && p <= src.bits && start <= |out|
    requires !SerialFrom(src, p, out, start, bounds, true).Escape?
    ensures ChainFrom(src, hints, p, out, bounds) == Outcome(SerialFrom(src, p, out, start, bounds, true))
    decreases |hints|
  {
    hide InStep, Forward, Shift, ChunkFrom, SerialFrom;
    InStepStart(out, bounds, start);
    var next := ChunkInStep(src, p, hints[0], true, [], [], out, bounds, out, start, bounds);
    ChunkEnds(src, p, hints[0], true, [], []);
    var c := ChunkAt(src, p, hints[0]);
    if c.Chunk? {
      TailResolves(c.cells, out);
      if !c.final {
        ChainInStep(src, hints[1..], c.end, out + Resolved(c.cells, out), next, bounds + Shift(c.bounds, |out|));
      }
    }
  }

  function Outcome(s: SerialResult): PipelineResult {
    match s
    case Finished(out, bounds) => Delivered(out, bounds)
    case _ => Failed
  }

  /** Whatever boundaries were guessed, a stream whose distances all stay inside their own member is
      delivered exactly as the serial decode has it, member boundaries included, and a corrupt one
      fails. */
  lemma PipelineIsSerial(src: Source, hints: seq<nat>)
    requires Forward(src) && Plausible(src, hints) && !Serial(src).Escape?
    ensures Pipeline(src, hints) == Outcome(Serial(src))
  {
    ChainInStep(src, hints, 0, [], 0, []);
  }

  // Distances that leave their member

  lemma {:induction false} CorruptEitherWay(src: Source, p: nat, out: seq<u8>, start: nat, bounds: seq<Boundary>)
    requires Forward(src) && start <= |out| && SerialFrom(src, p, out, start, bounds, true) == Corrupt
    ensures SerialFrom(src, p, out, 0, bounds, false) == Corrupt
    decreases src.bits - p
  {
    hide Forward, Apply, ValidTokens;
    BlockForwardAt(src, p);
    var blk := src.block(p);
    if blk.Block? {
      ApplyBehind(out[..start], out[start..], blk.tokens);
      MemberGrows(out[start..], blk.tokens);
      assert out[..start] + out[start..] == out == out[0..];
      var next := out[..start] + Apply(out[start..], blk.tokens).value;
      assert out[..0] + next == next;
      var t := src.trailer(blk.end);
      if !blk.final {
        CorruptEitherWay(src, blk.end, next, start, bounds);
      } else if t.NextMember? {
        TrailerForwardAt(src, blk.end);
        CorruptEitherWay(src, t.first, next, |next|, bounds + [Boundary(|next|, t.crc, t.isize)]);
      }
    }
  }

  /** A block the chunk can take in, whose cells can all be resolved, can be taken in by the lenient
      decode too, which then grows as much. */
  lemma BlockAsLong(h: seq<u8>, first: bool, cells: seq<Cell>, out: seq<u8>, ts: seq<Token>)
    requires ValidTokens(ts) && |out| == |h| + |cells|
    requires var r := ChunkBlock(cells, first, ts); r.Some? && Resolvable(r.value, |h|)
    ensures Apply(out, ts).Some? && |Apply(out, ts).value| == |h| + |ChunkBlock(cells, first, ts).value|
  {
    ChunkBlockGrows(cells, first, ts);
    if first {
      ResolvablePrefix(Blind(cells, ts), |cells|, |h|);
      BlindResolves(cells, ts, h);
      ApplyLength(h + Resolved(cells, h), out, ts);
    } else {
      MemberGrows(Lower(cells), ts);
      ApplyLength(Lower(cells), out, ts);
    }
  }

  /** What a chunk delivers, the lenient decode delivers too: at least in length and boundaries. */
  lemma {:induction false} ChunkAsLong(src: Source, p: nat, hint: nat, first: bool, cells: seq<Cell>, cb: seq<Boundary>,
                                       h: seq<u8>, b: seq<Boundary>, out: seq<u8>)
      returns (out': seq<u8>)
    requires Forward(src) && p <= src.bits && |out| == |h| + |cells|
    requires var c := ChunkFrom(src, p, hint, first, cells, cb); c.Chunk? && Resolvable(c.cells, |h|)
    ensures var c := ChunkFrom(src, p, hint, first, cells, cb);
      && |out'| == |h| + |c.cells|
      && SerialFrom(src, p, out, 0, b + Shift(cb, |h|), false) ==
          if c.final then Finished(out', b + Shift(c.bounds, |h|))
          else SerialFrom(src, c.end, out', 0, b + Shift(c.bounds, |h|), false)
    decreases src.bits - p
  {
    hide Forward, Apply, ValidTokens, ChunkBlock, Resolvable, Shift;
    BlockForwardAt(src, p);
    out' := out;
    if p < hint {
      var blk := src.block(p);
      var c := ChunkFrom(src, p, hint, first, cells, cb);
      var cells' := ChunkBlock(cells, first, blk.tokens).value;
      ChunkRestGrows(src, p, hint, first, cells, cb);
      ResolvablePrefix(c.cells, |cells'|, |h|);
      BlockAsLong(h, first, cells, out, blk.tokens);
      var next := Apply(out, blk.tokens).value;
      assert out == out[0..] && out[..0] + next == next;
      var t := src.trailer(blk.end);
      if !blk.final {
        out' := ChunkAsLong(src, blk.end, hint, first, cells', cb, h, b, next);
      } else {
        TrailerForwardAt(src, blk.end);
        ShiftAppend(cb, Boundary(|cells'|, t.crc, t.isize), |h|);
        var cb' := cb + [Boundary(|cells'|, t.crc, t.isize)];
        assert b + Shift(cb', |h|) == b + Shift(cb, |h|) + [Boundary(|next|, t.crc, t.isize)];
        out' := next;
        if t.NextMember? {
          out' := ChunkAsLong(src, t.first, hint, false, cells', cb', h, b, next);
        }
      }
    }
  }

  /** A chunk that comes to a block keeps that block's cells. */
  lemma ChunkRestGrows(src: Source, p: nat, hint: nat, first: bool, cells: seq<Cell>, cb: seq<Boundary>)
    requires Forward(src) && p < hint && p <= src.bits
    requires ChunkFrom(src, p, hint, first, cells, cb).Chunk?
    ensures var r := ChunkBlock(cells, first, src.block(p).tokens);
      var c := ChunkFrom(src, p, hint, first, cells, cb);
      r.Some? && |r.value| <= |c.cells| && c.cells[..|r.value|] == r.value
  {
    hide Forward, ChunkBlock;
    BlockForwardAt(src, p);
    var blk := src.block(p);
    var r := ChunkBlock(cells, first, blk.tokens).value;
    if !blk.final {
      ChunkEnds(src, blk.end, hint, first, r, cb);
    } else {
      TrailerForwardAt(src, blk.end);
      var t := src.trailer(blk.end);
      if t.NextMember? { ChunkEnds(src, t.first, hint, false, r, cb + [Boundary(|r|, t.crc, t.isize)]); }
    }
  }

  lemma {:induction false} ChainAsLong(src: Source, hints: seq<nat>, p: nat, out: seq<u8>, lenient: seq<u8>,
                                       bounds: seq<Boundary>)
    requires Forward(src) && p <= src.bits && |lenient| == |out|
    requires ChainFrom(src, hints, p, out, bounds).Delivered?
    ensures SerialFrom(src, p, lenient, 0, bounds, false).Finished?
    decreases |hints|
  {
    hide Forward, Shift, ChunkFrom, SerialFrom;
    ChunkEnds(src, p, hints[0], true, [], []);
    var c := ChunkAt(src, p, hints[0]);
    if |Tail(out)| < |out| { WiderResolves(c.cells, |Tail(out)|, |out|); }
    ShiftNone(bounds, |out|);
    var lenient' := ChunkAsLong(src, p, hints[0], true, [], [], out, bounds, lenient);
    if !c.final {
      ChainAsLong(src, hints[1..], c.end, out + Resolved(c.cells, Tail(out)), lenient',
                  bounds + Shift(c.bounds, |out|));
    }
  }

  lemma ShiftNone(bounds: seq<Boundary>, n: nat)
    ensures bounds + Shift([], n) == bounds
  {
  }

  lemma WiderResolves(cells: seq<Cell>, n: nat, m: nat)
    requires Resolvable(cells, n) && n <= m
    ensures Resolvable(cells, m)
  {
    forall i | 0 <= i < |cells| ensures CellReaches(cells[i], m) {
      assert CellReaches(cells[i], n);
    }
  }

  /** Guesses that make every block its own chunk. */
  ghost function EveryBlock(src: Source, p: nat): (hints: seq<nat>)
    requires Forward(src)
    ensures Plausible(src, hints)
    decreases src.bits - p
  {
    assert BlockForward(src, p);
    var last := [src.bits + p + 1];
    match src.block(p)
    case BadBlock => last
    case Block(_, final, end) =>
      if !final then [p + 1] + EveryBlock(src, end)
      else
        assert TrailerForward(src, end);
        match src.trailer(end)
        case NextMember(_, _, q) => [p + 1] + EveryBlock(src, q)
        case _ => last
  }

  /** A chunk whose hint lies inside the block it starts with is that block. */
  lemma OneBlockChunk(src: Source, p: nat, hint: nat)
    requires Forward(src) && p < hint
    requires var b := src.block(p);
      b.Block? ==> hint <= b.end || (b.final && !src.trailer(b.end).NextMember?)
    ensures ChunkAt(src, p, hint) ==
      match src.block(p) {
        case BadBlock => ChunkErr
        case Block(ts, final, end) =>
          var cells := Blind([], ts);
          if !final then Chunk(cells, [], false, end)
          else match src.trailer(end) {
            case NoTrailer => ChunkErr
            case LastMember(crc, isize, e) => Chunk(cells, [Boundary(|cells|, crc, isize)], true, e)
            case NextMember(crc, isize, q) => Chunk(cells, [Boundary(|cells|, crc, isize)], false, q)
          }
      }
  {
    hide Forward, Blind, ValidTokens;
    BlockForwardAt(src, p);
    var b := src.block(p);
    if b.Block? {
      var cells := Blind([], b.tokens);
      var t := src.trailer(b.end);
      TrailerForwardAt(src, b.end);
      if !b.final {
        assert ChunkFrom(src, b.end, hint, true, cells, []) == Chunk(cells, [], false, b.end);
      } else if t.NextMember? {
        var mark := Boundary(|cells|, t.crc, t.isize);
        assert [] + [mark] == [mark];
        assert ChunkFrom(src, t.first, hint, false, cells, [mark]) == Chunk(cells, [mark], false, t.first);
      }
    }
  }

  /** Cut at every block, the chain lets every member copy from all that came before. */
  lemma {:induction false} EveryBlockIsLenient(src: Source, p: nat, out: seq<u8>, bounds: seq<Boundary>)
    requires Forward(src)
    ensures ChainFrom(src, EveryBlock(src, p), p, out, bounds) == Outcome(SerialFrom(src, p, out, 0, bounds, false))
    decreases src.bits - p
  {
    hide Forward, Apply, ValidTokens, ChunkFrom, Blind, Resolvable, Resolved, Shift, Tail;
    BlockForwardAt(src, p);
    var blk := src.block(p);
    var hints := EveryBlock(src, p);
    OneBlockChunk(src, p, hints[0]);
    if blk.Block? {
      SpeculationIsSoundAt(src, p, out);
      var cells := Blind([], blk.tokens);
      assert out == out[0..];
      var t := src.trailer(blk.end);
      if blk.final { TrailerForwardAt(src, blk.end); }
      if Apply(out, blk.tokens).Some? {
        var next := Apply(out, blk.tokens).value;
        assert out[..0] + next == next;
        ShiftNone(bounds, |out|);
        ShiftOne(cells, t, out, next);
        if !blk.final {
          assert hints[1..] == EveryBlock(src, blk.end);
          EveryBlockIsLenient(src, blk.end, next, bounds);
        } else if t.NextMember? {
          assert hints[1..] == EveryBlock(src, t.first);
          EveryBlockIsLenient(src, t.first, next, bounds + [Boundary(|next|, t.crc, t.isize)]);
        }
      }
    }
  }

  lemma ShiftOne(cells: seq<Cell>, t: Trailer, out: seq<u8>, next: seq<u8>)
    requires |next| == |out| + |cells|
    ensures !t.NoTrailer? ==> Shift([Boundary(|cells|, t.crc, t.isize)], |out|) == [Boundary(|next|, t.crc, t.isize)]
  {
  }

  lemma SpeculationIsSoundAt(src: Source, p: nat, out: seq<u8>)
    requires Forward(src) && src.block(p).Block?
    ensures var ts := src.block(p).tokens; var cells := Blind([], ts);
      Apply(out, ts) == if Resolvable(cells, |Tail(out)|) then Some(out + Resolved(cells, Tail(out))) else None
  {
    BlockForwardAt(src, p);
    SpeculationIsSound(src.block(p).tokens, out);
  }

  /** Exactly when the pipeline can be told from the serial decode: for all guesses they agree, unless
      some distance leaves its member but stays inside the output of the members before it. */
  lemma PipelineIsSerialExactly(src: Source)
    requires Forward(src)
    ensures (forall hints | Plausible(src, hints) :: Pipeline(src, hints) == Outcome(Serial(src)))
       <==> !(Serial(src).Escape? && Lenient(src).Finished?)
  {
    hide Forward, ChainFrom, SerialFrom, Plausible;
    if !Serial(src).Escape? {
      forall hints | Plausible(src, hints) ensures Pipeline(src, hints) == Outcome(Serial(src)) {
        PipelineIsSerial(src, hints);
      }
    } else if !Lenient(src).Finished? {
      forall hints | Plausible(src, hints) ensures Pipeline(src, hints) == Failed {
        if Pipeline(src, hints).Delivered? { ChainAsLong(src, hints, 0, [], [], []); }
      }
    } else {
      EveryBlockIsLenient(src, 0, [], []);
      assert Pipeline(src, EveryBlock(src, 0)).Delivered?;
    }
  }
}
