/** The serial decoder with bounded memory (pipeline.rs): only the last 32 KiB of a member are kept
    between emissions, and nothing changes. */
module SerialDecode {
  import opened Words
  import opened BitStream
  import opened Tables
  import opened Lz77
  import opened Deflate
  import opened Kernels
  import opened Blocks
  import opened Walk
  import opened Chain
  import opened Digest
  import opened Endings
  import opened Workers
  import opened Output

  /** Retained history: the largest distance. */
  const SERIAL_WINDOW: nat := 0x8000

  /** With a full window kept, a block's tokens are accepted and expand as with all of the history: a
      back-reference that the whole output can serve, the window can serve. */
  lemma {:induction false} WindowEnough(gone: seq<u8>, kept: seq<u8>, ts: seq<Token>)
    requires ValidTokens(ts) && (gone == [] || |kept| >= SERIAL_WINDOW)
    ensures Apply(gone + kept, ts) ==
      match Apply(kept, ts) { case None => None case Some(r) => Some(gone + r) }
    decreases |ts|
  {
    if ts != [] {
      assert ValidToken(ts[0]);
      if gone == [] {
        assert gone + kept == kept;
        var r := Apply(kept, ts);
        if r.Some? { assert gone + r.value == r.value; }
      } else if ts[0].Lit? {
        assert gone + kept + [ts[0].b] == gone + (kept + [ts[0].b]);
        WindowEnough(gone, kept + [ts[0].b], ts[1..]);
      } else {
        CopyBackPrefix(gone, kept, ts[0].dist, ts[0].len);
        CopyBackAt(kept, ts[0].dist, ts[0].len);
        WindowEnough(gone, CopyBack(kept, ts[0].dist, ts[0].len), ts[1..]);
      }
    }
  }

  /** What the serial decoder keeps between steps: `done` are the members before, `gone` what the sink
      has of this one, `out` what is held back. */
  ghost predicate Holding(src: Source, h: Hasher, p: nat, sink: seq<seq<u8>>, done: seq<u8>, gone: seq<u8>,
                          out: seq<u8>, bounds: seq<Boundary>, crc: nat, len: nat)
    requires Forward(src)
  {
    && Flat(sink) == done + gone
    && crc == h.of(gone) && len == |gone|
    && (gone == [] || |out| >= SERIAL_WINDOW)
    && Ordered(bounds, |done|) && StartOf(bounds, |bounds|) == |done| && AllOk(h, done, bounds)
    && SerialFrom(src, p, done + (gone + out), |done|, bounds, true) == Walk.Serial(src)
  }

  /** One piece to the sink; the digest and length of the member see its bytes once. */
  method Emit(h: Hasher, room: nat, sink0: seq<seq<u8>>, crc0: nat, len0: nat, piece: seq<u8>, ghost gone: seq<u8>)
      returns (open: bool, sink: seq<seq<u8>>, crc: nat, len: nat)
    requires Lawful(h) && crc0 == h.of(gone) && len0 == |gone|
    ensures crc == h.of(gone + piece) && len == |gone + piece|
    ensures open == (|sink0| < room)
    ensures sink == if open then sink0 + [piece] else sink0
    ensures open ==> Flat(sink) == Flat(sink0) + piece
  {
    crc, len := h.join(crc0, h.of(piece), |piece|), len0 + |piece|;
    open := |sink0| < room;
    sink := sink0;
    if open {
      FlatSnoc(sink0, piece);
      sink := sink + [piece];
    }
  }

  /** Mid-member: whole chunks go out while the window stays. */
  method EmitWindows(h: Hasher, room: nat, target: nat, sink0: seq<seq<u8>>, crc0: nat, len0: nat, out0: seq<u8>,
                     ghost done: seq<u8>, ghost gone0: seq<u8>)
      returns (open: bool, sink: seq<seq<u8>>, crc: nat, len: nat, out: seq<u8>, ghost gone: seq<u8>)
    requires Lawful(h) && target > 0 && crc0 == h.of(gone0) && len0 == |gone0| && Flat(sink0) == done + gone0
    requires gone0 == [] || |out0| >= SERIAL_WINDOW
    ensures crc == h.of(gone) && len == |gone| && gone + out == gone0 + out0
    ensures gone == [] || |out| >= SERIAL_WINDOW
    ensures open ==> Flat(sink) == done + gone && |out| < target + SERIAL_WINDOW
    ensures !open ==> |sink| >= room
    ensures |sink0| <= room ==> |sink| <= room
  {
    hide Flat, Lawful;
    open, sink, crc, len, out, gone := true, sink0, crc0, len0, out0, gone0;
    while |out| >= target + SERIAL_WINDOW
      invariant crc == h.of(gone) && len == |gone| && gone + out == gone0 + out0 && open
      invariant gone == [] || |out| >= SERIAL_WINDOW
      invariant Flat(sink) == done + gone
      invariant |sink0| <= room ==> |sink| <= room
      decreases |out|
    {
      var emitLen := |out| - SERIAL_WINDOW;
      var piece := out[..emitLen];
      out := out[emitLen..];
      assert gone + (piece + out) == gone0 + out0;
      open, sink, crc, len := Emit(h, room, sink, crc, len, piece, gone);
      gone := gone + piece;
      if !open {
        return;
      }
    }
  }

  /** A member's last bytes are emitted, and its digest and length compared with the trailer. */
  lemma MemberChecked(h: Hasher, done: seq<u8>, member: seq<u8>, bounds: seq<Boundary>, t: Trailer)
    requires Ordered(bounds, |done|) && StartOf(bounds, |bounds|) == |done| && AllOk(h, done, bounds)
    requires !t.NoTrailer?
    ensures var out := done + member; var all := bounds + [Boundary(|out|, t.crc, t.isize)];
      && Ordered(all, |out|) && StartOf(all, |all|) == |out|
      && (AllOk(h, out, all) <==> h.of(member) == t.crc && |member| % ISIZE_LIMIT == t.isize)
  {
    hide MemberOk, Part;
    var b := Boundary(|done| + |member|, t.crc, t.isize);
    MembersStay(h, done, bounds, member, b);
    PartAtEnd(done, bounds);
    assert [] + member == member;
    var all := bounds + [b];
    MemberOkIs(h, done + member, all, |bounds|);
  }

  lemma MemberOkIs(h: Hasher, out: seq<u8>, bounds: seq<Boundary>, k: nat)
    requires k < |bounds| && Ordered(bounds, |out|)
    ensures MemberOk(h, out, bounds, k) <==>
      h.of(Part(out, bounds, k)) == bounds[k].crc && |Part(out, bounds, k)| % ISIZE_LIMIT == bounds[k].isize
  {
  }

  lemma PartAtEnd(out: seq<u8>, bounds: seq<Boundary>)
    requires Ordered(bounds, |out|) && StartOf(bounds, |bounds|) == |out|
    ensures Part(out, bounds, |bounds|) == []
  {
  }

  /** What a serial state holds is kept in what the decode delivers. */
  lemma {:induction false} SerialGrows(src: Source, p: nat, out: seq<u8>, start: nat, bounds: seq<Boundary>)
    requires Forward(src) && start <= |out| && Ordered(bounds, |out|)
    ensures var s := SerialFrom(src, p, out, start, bounds, true);
      s.Finished? ==> out <= s.out && bounds <= s.bounds && Ordered(s.bounds, |s.out|)
    decreases src.bits - p
  {
    hide Forward, Apply, Ordered, ValidTokens;
    BlockForwardAt(src, p);
    var b := src.block(p);
    if b.Block? {
      var member := Apply(out[start..], b.tokens);
      if member.Some? {
        MemberGrows(out[start..], b.tokens);
        var next := out[..start] + member.value;
        assert out <= next;
        OrderedGrows(bounds, |out|, |next|);
        if !b.final {
          SerialGrows(src, b.end, next, start, bounds);
        } else {
          TrailerForwardAt(src, b.end);
          var t := src.trailer(b.end);
          if !t.NoTrailer? { OrderedSnoc(bounds, |next|, Boundary(|next|, t.crc, t.isize)); }
          if t.NextMember? {
            SerialGrows(src, t.first, next, |next|, bounds + [Boundary(|next|, t.crc, t.isize)]);
          }
        }
      }
    }
  }

  /** Too close to the end of the body for a trailer, no decode can finish. */
  lemma {:induction false} SerialLate(src: Source, p: nat, out: seq<u8>, start: nat, bounds: seq<Boundary>)
    requires Forward(src) && Roomy(src) && start <= |out| && p + 64 > src.bits
    ensures !SerialFrom(src, p, out, start, bounds, true).Finished?
    decreases src.bits - p
  {
    hide Forward, Apply, ValidTokens;
    BlockForwardAt(src, p);
    var b := src.block(p);
    if b.Block? {
      var member := Apply(out[start..], b.tokens);
      if member.Some? && !b.final {
        MemberGrows(out[start..], b.tokens);
        SerialLate(src, b.end, out[..start] + member.value, start, bounds);
      }
    }
  }

  // The loop

  /** The serial result as a verdict on the run sees it. */
  ghost predicate Judges(src: Source, h: Hasher, sink: seq<seq<u8>>, verdict: Ending, room: nat)
    requires Forward(src)
  {
    var s := Serial(src);
    match verdict
    case Success => s.Finished? && s.out == Flat(sink) && Ordered(s.bounds, |s.out|) && AllOk(h, s.out, s.bounds)
    case BadMember => s.Finished? ==> Ordered(s.bounds, |s.out|) && !AllOk(h, s.out, s.bounds)
    case StageFailed => !s.Finished?
    case SinkClosed => |sink| == room
    case _ => false
  }

  /** What the serial decode makes of what follows a final block that ends at e. */
  ghost function AfterFinal(src: Source, e: nat, out: seq<u8>, bounds: seq<Boundary>): SerialResult
    requires Forward(src)
  {
    match src.trailer(e)
    case NoTrailer => Corrupt
    case LastMember(crc, isize, _) => Finished(out, bounds + [Boundary(|out|, crc, isize)])
    case NextMember(crc, isize, q) => SerialFrom(src, q, out, |out|, bounds + [Boundary(|out|, crc, isize)], true)
  }

  /** A block decoded behind the kept window takes the serial decode one block further. */
  lemma HoldingBlock(src: Source, h: Hasher, p: nat, sink: seq<seq<u8>>, done: seq<u8>, gone: seq<u8>, out: seq<u8>,
                     bounds: seq<Boundary>, crc: nat, len: nat, out': seq<u8>)
    requires Forward(src) && Holding(src, h, p, sink, done, gone, out, bounds, crc, len)
    requires var b := src.block(p); b.Block? && Apply(out, b.tokens) == Some(out')
    ensures gone == [] || |out'| >= SERIAL_WINDOW
    ensures var b := src.block(p); var next := done + (gone + out');
      Serial(src) ==
        if b.final then AfterFinal(src, b.end, next, bounds)
        else SerialFrom(src, b.end, next, |done|, bounds, true)
  {
    hide Forward, Apply, AllOk, Ordered, ValidTokens, Flat;
    BlockForwardAt(src, p);
    var b := src.block(p);
    WindowEnough(gone, out, b.tokens);
    MemberGrows(out, b.tokens);
    var whole := done + (gone + out);
    assert whole[|done|..] == gone + out && whole[..|done|] == done;
    if b.final { TrailerForwardAt(src, b.end); }
  }

  /** A block that cannot be decoded behind the kept window cannot be decoded at all. */
  lemma HoldingFails(body: seq<u8>, hdr: HeaderParser, h: Hasher, p: nat, sink: seq<seq<u8>>, done: seq<u8>,
                     gone: seq<u8>, out: seq<u8>, bounds: seq<Boundary>, crc: nat, len: nat)
    requires Holding(SourceOf(body, hdr), h, p, sink, done, gone, out, bounds, crc, len)
    requires var b := BlockAt(body, p);
      b.BadBlock? || b.end + NEEDED > 8 * |body| || Apply(out, b.tokens).None?
    ensures !Serial(SourceOf(body, hdr)).Finished?
  {
    hide Forward, Apply, AllOk, Ordered, ValidTokens, Flat, BlockAt, TrailerAt;
    var src := SourceOf(body, hdr);
    var b := src.block(p);
    assert b == BlockAt(body, p);
    BlockForwardAt(src, p);
    if b.Block? {
      WindowEnough(gone, out, b.tokens);
      var whole := done + (gone + out);
      assert whole[|done|..] == gone + out && whole[..|done|] == done;
      if Apply(out, b.tokens).Some? {
        HoldingBlock(src, h, p, sink, done, gone, out, bounds, crc, len, Apply(out, b.tokens).value);
        RoomyBody(body, hdr);
        if !b.final { SerialLate(src, b.end, done + (gone + Apply(out, b.tokens).value), |done|, bounds); }
      }
    }
  }

  lemma RoomyBody(body: seq<u8>, hdr: HeaderParser)
    ensures Roomy(SourceOf(body, hdr))
  {
    hide TrailerAt;
    forall e: nat ensures SourceOf(body, hdr).trailer(e).NoTrailer? || e + 64 <= 8 * |body| {
      TrailerRoom(body, hdr, e);
    }
  }

  /** After the final block of a member: the rest goes out, then the trailer is read and checked. On
      `None` another member begins, with an empty window. */
  method FinishMember(body: seq<u8>, hdr: HeaderParser, br: BitReader, h: Hasher, room: nat, sink0: seq<seq<u8>>,
                      crc0: nat, len0: nat, out: seq<u8>, ghost done: seq<u8>, ghost gone: seq<u8>,
                      ghost bounds: seq<Boundary>)
      returns (stop: Option<Ending>, sink: seq<seq<u8>>, ghost done': seq<u8>, ghost bounds': seq<Boundary>)
    requires br.Valid() && br.input == body && Lawful(h) && |sink0| <= room
    requires Flat(sink0) == done + gone && crc0 == h.of(gone) && len0 == |gone|
    requires Ordered(bounds, |done|) && StartOf(bounds, |bounds|) == |done| && AllOk(h, done, bounds)
    requires var next := done + (gone + out);
      Serial(SourceOf(body, hdr)) == AfterFinal(SourceOf(body, hdr), br.TellBit(), next, bounds)
    modifies br
    ensures br.Valid() && |sink| <= room
    ensures match stop
      case Some(v) => Judges(SourceOf(body, hdr), h, sink, v, room)
      case None =>
        && old(br.TellBit()) < br.TellBit() <= 8 * |body|
        && Holding(SourceOf(body, hdr), h, br.TellBit(), sink, done', [], [], bounds', h.of([]), 0)
  {
    hide Agrees, Forward, SourceOf, Holding, Judges, SerialFrom, AfterFinal, Flat, Ordered, AllOk, Lawful, BlockAt,
      TrailerAt, BlockAnswers, Apply;
    sink, done', bounds' := sink0, done + (gone + out), bounds;
    var crc, len;
    var open := true;
    assert done + gone + out == done';
    if out == [] {
      assert gone + out == gone;
      crc, len := crc0, len0;
    } else {
      open, sink, crc, len := Emit(h, room, sink, crc0, len0, out, gone);
    }
    if !open {
      SinkGone(SourceOf(body, hdr), h, sink, room);
      return Some(SinkClosed), sink, done', bounds';
    }
    ghost var e := br.TellBit();
    var t := ReadTrailer(br, hdr);
    MemberJudged(body, hdr, h, e, sink, done, gone + out, bounds, t, room);
    if t.NoTrailer? {
      return Some(StageFailed), sink, done', bounds';
    }
    bounds' := bounds + [Boundary(|done'|, t.crc, t.isize)];
    if crc != t.crc || len % ISIZE_LIMIT != t.isize {
      return Some(BadMember), sink, done', bounds';
    }
    stop := if t.LastMember? then Some(Success) else None;
  }

  lemma SinkGone(src: Source, h: Hasher, sink: seq<seq<u8>>, room: nat)
    requires Forward(src) && |sink| == room
    ensures Judges(src, h, sink, SinkClosed, room)
  {
  }

  lemma MemberJudged(body: seq<u8>, hdr: HeaderParser, h: Hasher, e: nat, sink: seq<seq<u8>>, done: seq<u8>,
                     member: seq<u8>, bounds: seq<Boundary>, t: Trailer, room: nat)
    requires Ordered(bounds, |done|) && StartOf(bounds, |bounds|) == |done| && AllOk(h, done, bounds)
    requires Flat(sink) == done + member && t == TrailerAt(body, hdr, e)
    requires Serial(SourceOf(body, hdr)) == AfterFinal(SourceOf(body, hdr), e, done + member, bounds)
    ensures var src := SourceOf(body, hdr);
      if t.NoTrailer? then Judges(src, h, sink, StageFailed, room)
      else
        var all := bounds + [Boundary(|done + member|, t.crc, t.isize)];
        if h.of(member) != t.crc || |member| % ISIZE_LIMIT != t.isize then Judges(src, h, sink, BadMember, room)
        else if t.LastMember? then Judges(src, h, sink, Success, room)
        else
          && Holding(src, h, t.first, sink, done + member, [], [], all, h.of([]), 0)
          && e < t.first <= 8 * |body|
  {
    hide Forward, AllOk, Ordered, Flat, SerialFrom, TrailerAt, StartOf;
    var src := SourceOf(body, hdr);
    assert src.trailer(e) == t;
    if !t.NoTrailer? {
      MemberChecked(h, done, member, bounds, t);
      var out := done + member;
      var all := bounds + [Boundary(|out|, t.crc, t.isize)];
      if t.NextMember? {
        TrailerForwardAt(src, e);
        if !AllOk(h, out, all) { SerialKeepsBad(src, t.first, h, out, all); }
        assert out + ([] + []) == out && out + [] == out;
      }
    }
  }

  lemma SerialKeepsBad(src: Source, p: nat, h: Hasher, out: seq<u8>, bounds: seq<Boundary>)
    requires Forward(src) && Ordered(bounds, |out|) && !AllOk(h, out, bounds)
    ensures var s := SerialFrom(src, p, out, |out|, bounds, true);
      s.Finished? ==> Ordered(s.bounds, |s.out|) && !AllOk(h, s.out, s.bounds)
  {
    hide Forward, SerialFrom, MemberOk, Ordered;
    SerialGrows(src, p, out, |out|, bounds);
    var s := SerialFrom(src, p, out, |out|, bounds, true);
    if s.Finished? {
      var k :| 0 <= k < |bounds| && !MemberOk(h, out, bounds, k);
      VerdictStays(h, out, bounds, s.out, s.bounds, k);
    }
  }

  /** `serial_decode_member`: block after block behind a bounded window, member after member. It says
      what the serial decode with unbounded memory says, and the sink gets that decode's bytes. */
  method DecodeMembers(body: seq<u8>, hdr: HeaderParser, h: Hasher, chunkSize: nat, room: nat)
      returns (sink: seq<seq<u8>>, verdict: Ending)
    requires Lawful(h)
    ensures Judges(SourceOf(body, hdr), h, sink, verdict, room)
  {
    hide Agrees, Forward, SourceOf, Holding, Judges, SerialFrom, AfterFinal, Flat, Ordered, AllOk, Lawful, BlockAt,
      TrailerAt, BlockAnswers, Apply;
    var target := if chunkSize > 0x1_0000 then chunkSize else 0x1_0000;
    var br := new BitReader(body);
    sink := [];
    ghost var done, gone, bounds := [], [], [];
    var out, crc, len := [], h.of([]), 0;
    HoldingStart(body, hdr, h);
    while true
      invariant br.Valid() && br.input == body && |sink| <= room
      invariant Holding(SourceOf(body, hdr), h, br.TellBit(), sink, done, gone, out, bounds, crc, len)
      decreases 8 * |body| - br.TellBit()
    {
      ghost var src, p, out0 := SourceOf(body, hdr), br.TellBit(), out;
      HoldingOpen(src, h, p, sink, done, gone, out, bounds, crc, len);
      var final;
      final, out := DecodeOneBlock(br, out, false);
      BlockOrFailure(body, hdr, h, p, sink, done, gone, out0, bounds, crc, len, final, out, br.TellBit(), room);
      if final.Err? {
        return sink, StageFailed;
      }
      if !final.value {
        var open;
        open, sink, crc, len, out, gone := EmitWindows(h, room, target, sink, crc, len, out, done, gone);
        if !open {
          SinkGone(src, h, sink, room);
          return sink, SinkClosed;
        }
        HoldingClose(src, h, br.TellBit(), sink, done, gone, out, bounds, crc, len);
      } else {
        var stop;
        stop, sink, done, bounds := FinishMember(body, hdr, br, h, room, sink, crc, len, out, done, gone, bounds);
        if stop.Some? {
          return sink, stop.value;
        }
        gone, out, crc, len := [], [], h.of([]), 0;
      }
    }
  }

  lemma HoldingStart(body: seq<u8>, hdr: HeaderParser, h: Hasher)
    ensures Holding(SourceOf(body, hdr), h, 0, [], [], [], [], [], h.of([]), 0)
  {
    hide SerialFrom, Forward;
    var none: seq<u8> := [];
    assert none + (none + none) == none;
  }

  lemma HoldingOpen(src: Source, h: Hasher, p: nat, sink: seq<seq<u8>>, done: seq<u8>, gone: seq<u8>, out: seq<u8>,
                    bounds: seq<Boundary>, crc: nat, len: nat)
    requires Forward(src) && Holding(src, h, p, sink, done, gone, out, bounds, crc, len)
    ensures Flat(sink) == done + gone && crc == h.of(gone) && len == |gone|
    ensures Ordered(bounds, |done|) && StartOf(bounds, |bounds|) == |done| && AllOk(h, done, bounds)
  {
  }

  lemma HoldingClose(src: Source, h: Hasher, p: nat, sink: seq<seq<u8>>, done: seq<u8>, gone: seq<u8>, out: seq<u8>,
                     bounds: seq<Boundary>, crc: nat, len: nat)
    requires Forward(src) && Flat(sink) == done + gone && crc == h.of(gone) && len == |gone|
    requires gone == [] || |out| >= SERIAL_WINDOW
    requires Ordered(bounds, |done|) && StartOf(bounds, |bounds|) == |done| && AllOk(h, done, bounds)
    requires SerialFrom(src, p, done + (gone + out), |done|, bounds, true) == Serial(src)
    ensures Holding(src, h, p, sink, done, gone, out, bounds, crc, len)
  {
  }

  lemma BlockOrFailure(body: seq<u8>, hdr: HeaderParser, h: Hasher, p: nat, sink: seq<seq<u8>>, done: seq<u8>,
                       gone: seq<u8>, out: seq<u8>, bounds: seq<Boundary>, crc: nat, len: nat,
                       r: Result<bool>, out': seq<u8>, pos: nat, room: nat)
    requires Holding(SourceOf(body, hdr), h, p, sink, done, gone, out, bounds, crc, len)
    requires BlockAnswers(body, p, out, false, r, out', pos)
    ensures var src := SourceOf(body, hdr); var next := done + (gone + out');
      match r
      case Err(_) => Judges(src, h, sink, StageFailed, room)
      case Ok(final) =>
        && p < pos <= 8 * |body| && (gone == [] || |out'| >= SERIAL_WINDOW)
        && Serial(src) ==
            if final then AfterFinal(src, pos, next, bounds) else SerialFrom(src, pos, next, |done|, bounds, true)
  {
    hide Forward, Apply, AllOk, Ordered, Flat, BlockAt, TrailerAt, SerialFrom, Holding, AfterFinal, StreamBlock,
      BlockRoom;
    var src := SourceOf(body, hdr);
    BlockFacts(body, p);
    assert src.block(p) == BlockAt(body, p);
    if r.Ok? {
      HoldingBlock(src, h, p, sink, done, gone, out, bounds, crc, len, out');
    } else {
      AnswerFails(body, p, out, false, r, out', pos);
      HoldingFails(body, hdr, h, p, sink, done, gone, out, bounds, crc, len);
    }
  }
}
