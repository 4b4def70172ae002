/** Decoding a source that cannot be mapped (lib.rs): a buffer that is refilled when a block does not fit,
    and an output window of 32 KiB. Whatever sizes the reads have, the result is that of the whole
    stream. */
module StreamReader {
  import opened Words
  import opened BitStream
  import opened Canonical
  import opened Tables
  import opened Lz77
  import opened Deflate
  import opened Kernels
  import opened Blocks
  import opened Walk
  import opened Digest
  import opened Output
  import opened SerialDecode
  import opened Workers
  import opened Stream
  import opened Pieces
  import opened GzipHeader

  // Blocks of a whole stream

  lemma {:induction false} SymbolsEnd(lit: seq<nat>, dist: seq<nat>, input: seq<u8>, p: nat, out: seq<u8>)
    requires ShortLengths(lit) && ShortLengths(dist)
    ensures var r := SymbolsFrom(lit, dist, input, p, out);
      r.Ok? ==> p < r.value.1 <= 8 * |input|
    decreases 8 * |input| - p
  {
    hide StepAt, ApplyOne;
    StepAdvances(lit, dist, input, p);
    StepShort(lit, dist, input, p);
    var s := StepAt(lit, dist, input, p);
    if p + NEEDED <= 8 * |input| && s.Emit? && ApplyOne(out, s.token).Some? {
      SymbolsEnd(lit, dist, input, s.next, ApplyOne(out, s.token).value);
    }
  }

  lemma BlockEnds(input: seq<u8>, p: nat, out: seq<u8>)
    ensures var r := StreamBlock(input, p, out);
      r.Ok? ==> p < r.value.2 <= 8 * |input|
  {
    hide Val, HeaderAt, SymbolsFrom, Apply, StoredFrom, FixedLit, FixedDist, ShortLengths, Fits;
    FixedFit();
    SymbolsEnd(FixedLit(), FixedDist(), input, p + 3, out);
    HeaderAdvances(input, p + 3, false);
    var h := HeaderAt(input, p + 3, false);
    if h.Ok? { SymbolsEnd(h.value.lit, h.value.dist, input, h.value.end, out); }
  }

  /** A whole member's blocks from p, with unbounded history. */
  ghost function MemberFrom(whole: seq<u8>, p: nat, out: seq<u8>): Result<(seq<u8>, nat)>
    decreases 8 * |whole| - p
  {
    BlockEnds(whole, p, out);
    match StreamBlock(whole, p, out)
    case Err(e) => Err(e)
    case Ok((final, next, end)) => if final then Ok((next, end)) else MemberFrom(whole, end, next)
  }

  // The window

  /** The same result with the bytes already gone in front. */
  function Behind(gone: seq<u8>, r: Result<(seq<u8>, nat)>): Result<(seq<u8>, nat)> {
    match r
    case Err(e) => Err(e)
    case Ok((out, q)) => Ok((gone + out, q))
  }

  lemma TokenWindow(gone: seq<u8>, kept: seq<u8>, t: Token)
    requires ValidToken(t) && (gone == [] || |kept| >= SERIAL_WINDOW)
    ensures match ApplyOne(kept, t)
      case None => ApplyOne(gone + kept, t).None?
      case Some(next) => ApplyOne(gone + kept, t) == Some(gone + next) && |next| >= |kept|
  {
    if t.Copy? && t.dist <= |kept| {
      CopyBackPrefix(gone, kept, t.dist, t.len);
      CopyBackAt(kept, t.dist, t.len);
    } else if t.Lit? {
      assert gone + kept + [t.b] == gone + (kept + [t.b]);
    }
  }

  lemma {:induction false} SymbolsWindow(lit: seq<nat>, dist: seq<nat>, input: seq<u8>, p: nat, gone: seq<u8>,
                                         kept: seq<u8>)
    requires gone == [] || |kept| >= SERIAL_WINDOW
    ensures SymbolsFrom(lit, dist, input, p, gone + kept) == Behind(gone, SymbolsFrom(lit, dist, input, p, kept))
    ensures var r := SymbolsFrom(lit, dist, input, p, kept); r.Ok? ==> |r.value.0| >= |kept|
    decreases 8 * |input| - p
  {
    hide StepAt, ApplyOne, ValidToken;
    StepAdvances(lit, dist, input, p);
    StepValid(lit, dist, input, p);
    var s := StepAt(lit, dist, input, p);
    if p + NEEDED <= 8 * |input| && s.Emit? {
      TokenWindow(gone, kept, s.token);
      var next := ApplyOne(kept, s.token);
      if next.Some? { SymbolsWindow(lit, dist, input, s.next, gone, next.value); }
    }
  }

  /** With a full window kept, a block decodes as with all of the history. */
  lemma BlockWindow(input: seq<u8>, p: nat, gone: seq<u8>, kept: seq<u8>)
    requires gone == [] || |kept| >= SERIAL_WINDOW
    ensures StreamBlock(input, p, gone + kept) ==
      match StreamBlock(input, p, kept) {
        case Err(e) => Err(e)
        case Ok((final, out, end)) => Ok((final, gone + out, end))
      }
    ensures var r := StreamBlock(input, p, kept); r.Ok? ==> |r.value.1| >= |kept|
  {
    hide Val, HeaderAt, SymbolsFrom, Apply, StoredFrom, FixedLit, FixedDist, ValidTokens;
    SymbolsWindow(FixedLit(), FixedDist(), input, p + 3, gone, kept);
    var h := HeaderAt(input, p + 3, false);
    if h.Ok? { SymbolsWindow(h.value.lit, h.value.dist, input, h.value.end, gone, kept); }
    var a := Aligned(p + 3);
    var ts := StoredFrom(input, a + 32, Val(input, a, 16));
    StoredValid(input, a + 32, Val(input, a, 16));
    WindowEnough(gone, kept, ts);
    MemberGrows(kept, ts);
  }

  // The buffer

  /** `StreamBuf`: the unread part of the source is `coming`, the pieces its next reads will return, all
      non-empty. `whole` is the entire stream and `drained` counts its bytes already dropped. */
  class StreamBuf {
    var coming: seq<seq<u8>>
    var buf: seq<u8>
    var bitOff: nat
    var srcEof: bool
    ghost const whole: seq<u8>
    ghost var drained: nat

    ghost predicate Valid()
      reads this
    {
      && drained + |buf| <= |whole|
      && buf == whole[drained..drained + |buf|]
      && whole[drained + |buf|..] == Flat(coming)
      && (forall i | 0 <= i < |coming| :: coming[i] != [])
      && (srcEof ==> coming == [])
      && bitOff < 8 && (bitOff > 0 ==> buf != [])
    }

    /** Bits consumed since the start of the stream. */
    ghost function Position(): nat
      reads this
    {
      8 * drained + bitOff
    }

    constructor (coming: seq<seq<u8>>)
      requires forall i | 0 <= i < |coming| :: coming[i] != []
      ensures Valid() && whole == Flat(coming) && Position() == 0 && this.coming == coming
    {
      this.coming, buf, bitOff, srcEof := coming, [], 0, false;
      whole, drained := Flat(coming), 0;
    }

    /** One read; nothing more means the end of the source. */
    method FillMore() returns (got: bool)
      requires Valid()
      modifies this
      ensures Valid() && Position() == old(Position()) && drained == old(drained)
      ensures got ==> |coming| < |old(coming)| && srcEof == old(srcEof) && |buf| > |old(buf)|
      ensures !got ==> srcEof && coming == old(coming) && buf == old(buf)
    {
      if coming == [] {
        srcEof := true;
        return false;
      }
      ghost var rest := whole[drained + |buf|..];
      FlatHead(coming);
      assert rest == coming[0] + Flat(coming[1..]);
      assert whole[drained..] == buf + rest;
      buf := buf + coming[0];
      coming := coming[1..];
      assert whole[drained..] == buf + Flat(coming);
      assert buf == whole[drained..][..|buf|] && Flat(coming) == whole[drained..][|buf|..];
      got := true;
    }

    /** Nothing beyond the buffer when the source has no more reads. */
    lemma AllBuffered()
      requires Valid() && coming == []
      ensures drained + |buf| == |whole|
    {
    }

    /** Drop the first n bytes. */
    method Drain(n: nat, newOff: nat)
      requires Valid() && n <= |buf| && newOff < 8 && (newOff > 0 ==> n < |buf|)
      modifies this
      ensures Valid() && drained == old(drained) + n && bitOff == newOff
      ensures buf == old(buf[n..]) && coming == old(coming) && srcEof == old(srcEof)
    {
      buf := buf[n..];
      drained := drained + n;
      bitOff := newOff;
    }

    /** One try at the block on what is buffered. */
    method TryBlock(out0: seq<u8>) returns (r: Result<bool>, out: seq<u8>, pos: nat)
      requires Valid()
      ensures match StreamBlock(buf, bitOff, out0)
        case Err(e) => r == Err(e)
        case Ok((final, o, end)) => r == Ok(final) && out == o && pos == end
    {
      hide StreamBlock;
      var br := new BitReader(buf);
      if bitOff > 0 {
        var seek := br.SeekToBit(bitOff);
      }
      r, out := InflateBlock(br, out0);
      pos := br.TellBit();
    }

    /** `decode_block`: retry with more input until the block fits or the source ends. The answer is that
        of the whole stream, however it was read. */
    method DecodeBlock(out0: seq<u8>) returns (r: Result<bool>, out: seq<u8>)
      requires Valid()
      modifies this
      ensures Valid()
      ensures match StreamBlock(whole, old(Position()), out0)
        case Err(e) => r == Err(e)
        case Ok((final, o, end)) => r == Ok(final) && out == o && Position() == end
    {
      hide StreamBlock, Flat;
      while true
        invariant Valid() && Position() == old(Position())
        decreases |coming|, !srcEof
      {
        ghost var start := drained;
        PieceBlock(buf, whole, drained, bitOff, out0);
        BlockEnds(buf, bitOff, out0);
        var pos;
        r, out, pos := TryBlock(out0);
        if r.Ok? {
          Drain(pos / 8, pos % 8);
          return;
        }
        if r == Err(Invalid) {
          return;
        }
        if srcEof {
          AllBuffered();
          return;
        }
        var got := FillMore();
      }
    }

    /** Skip the rest of a partly consumed byte. */
    method ByteAlign()
      requires Valid()
      modifies this
      ensures Valid() && bitOff == 0 && Position() == Aligned(old(Position()))
    {
      if bitOff > 0 && buf != [] {
        Drain(1, 0);
      }
    }

    /** Have at least n bytes buffered, or find that the source has fewer. */
    method FillAtLeast(n: nat) returns (ok: bool)
      requires Valid()
      modifies this
      ensures Valid() && Position() == old(Position()) && drained == old(drained) && bitOff == old(bitOff)
      ensures ok <==> drained + n <= |whole|
      ensures ok ==> |buf| >= n
    {
      hide Flat;
      while |buf| < n
        invariant Valid() && Position() == old(Position()) && drained == old(drained) && bitOff == old(bitOff)
        decreases |coming|, !srcEof
      {
        if srcEof {
          AllBuffered();
          return false;
        }
        var got := FillMore();
      }
      ok := true;
    }

    /** `read_gzip_header`: the header here, with more input as needed. */
    method ReadGzipHeader() returns (r: Result<()>)
      requires Valid() && bitOff == 0
      modifies this
      ensures Valid() && bitOff == 0
      ensures match ParseHeader(whole[old(drained)..])
        case Parsed(n) => r == Ok(()) && drained == old(drained) + n
        case Short => r == Err(UnexpectedEof)
        case Bad => r == Err(Invalid)
    {
      hide ParseHeader, Flat;
      while true
        invariant Valid() && bitOff == 0 && drained == old(drained)
        decreases |coming|, !srcEof
      {
        assert whole[drained..] == buf + whole[drained + |buf|..];
        HeaderStays(buf, whole[drained + |buf|..]);
        match ParseHeader(buf) {
          case Parsed(n) =>
            Drain(n, 0);
            return Ok(());
          case Bad =>
            return Err(Invalid);
          case Short =>
            if srcEof {
              AllBuffered();
              assert whole[drained..] == buf;
              return Err(UnexpectedEof);
            }
            var got := FillMore();
        }
      }
    }
  }

  // Members

  /** One piece out, when there is one. */
  method EmitPiece(h: Hasher, sink0: seq<seq<u8>>, crc0: nat, len0: nat, piece: seq<u8>, ghost gone: seq<u8>)
      returns (sink: seq<seq<u8>>, crc: nat, len: nat)
    requires Lawful(h) && crc0 == h.of(gone) && len0 == |gone|
    ensures crc == h.of(gone + piece) && len == |gone + piece| && Flat(sink) == Flat(sink0) + piece
  {
    sink, crc, len := sink0, crc0, len0;
    if piece == [] {
      assert gone + piece == gone && Flat(sink0) + piece == Flat(sink0);
    } else {
      crc, len := h.join(crc, h.of(piece), |piece|), len + |piece|;
      FlatSnoc(sink0, piece);
      sink := sink + [piece];
    }
  }

  /** A member's blocks: emit what the window no longer needs after each, and all of it at the end. The
      sink gets the member's bytes as unbounded history has them, and the digest sees each once. */
  method ReadMember(sb: StreamBuf, h: Hasher, sink0: seq<seq<u8>>)
      returns (r: Result<()>, sink: seq<seq<u8>>, crc: nat, len: nat)
    requires sb.Valid() && Lawful(h)
    modifies sb
    ensures sb.Valid()
    ensures match MemberFrom(sb.whole, old(sb.Position()), [])
      case Err(e) => r == Err(e)
      case Ok((o, end)) =>
        && r == Ok(()) && sb.Position() == end
        && Flat(sink) == Flat(sink0) + o && crc == h.of(o) && len == |o|
  {
    hide StreamBlock, Flat, Lawful;
    sink, crc, len := sink0, h.of([]), 0;
    var out: seq<u8> := [];
    ghost var gone: seq<u8>, all := [], Flat(sink0);
    assert all + gone == all && gone + out == [];
    while true
      invariant sb.Valid() && crc == h.of(gone) && len == |gone| && Flat(sink) == all + gone
      invariant gone == [] || |out| >= SERIAL_WINDOW
      invariant MemberFrom(sb.whole, sb.Position(), gone + out) == MemberFrom(sb.whole, old(sb.Position()), [])
      decreases 8 * |sb.whole| - sb.Position()
    {
      BlockWindow(sb.whole, sb.Position(), gone, out);
      BlockEnds(sb.whole, sb.Position(), out);
      var final;
      final, out := sb.DecodeBlock(out);
      if final.Err? {
        return Err(final.error), sink, crc, len;
      }
      var emitEnd := if final.value then |out| else if |out| < SERIAL_WINDOW then 0 else |out| - SERIAL_WINDOW;
      var piece := out[..emitEnd];
      assert gone + out == gone + piece + out[emitEnd..];
      assert all + (gone + piece) == all + gone + piece;
      sink, crc, len := EmitPiece(h, sink, crc, len, piece, gone);
      gone := gone + piece;
      out := out[emitEnd..];
      if final.value {
        assert gone + out == gone;
        return Ok(()), sink, crc, len;
      }
      if emitEnd == 0 { assert piece == []; }
    }
  }

  lemma {:induction false} MemberEnds(whole: seq<u8>, p: nat, out: seq<u8>)
    ensures var r := MemberFrom(whole, p, out); r.Ok? ==> p < r.value.1 <= 8 * |whole|
    decreases 8 * |whole| - p
  {
    hide StreamBlock;
    BlockEnds(whole, p, out);
    var r := StreamBlock(whole, p, out);
    if r.Ok? && !r.value.0 { MemberEnds(whole, r.value.2, r.value.1); }
  }

  // The whole source

  datatype StreamError = ShortStream | BadStream | IntegrityError

  datatype StreamEnd = StreamDone(out: seq<u8>) | StreamFailed(error: StreamError)

  function ErrorOf(e: DeflateError): StreamError {
    if e == UnexpectedEof then ShortStream else BadStream
  }

  /** All members from byte `pos` on, with unbounded memory; at least one member in all. */
  ghost function GzFrom(h: Hasher, whole: seq<u8>, pos: nat, out: seq<u8>, members: nat): StreamEnd
    decreases |whole| - pos
  {
    if pos >= |whole| then (if members == 0 then StreamFailed(ShortStream) else StreamDone(out))
    else match ParseHeader(whole[pos..])
      case Short => StreamFailed(ShortStream)
      case Bad => StreamFailed(BadStream)
      case Parsed(n) =>
        MemberEnds(whole, 8 * (pos + n), []);
        match MemberFrom(whole, 8 * (pos + n), [])
        case Err(e) => StreamFailed(ErrorOf(e))
        case Ok((member, end)) =>
          var t := Aligned(end) / 8;
          if t + 8 > |whole| then StreamFailed(ShortStream)
          else if h.of(member) != Word32(whole, t) || |member| % ISIZE_LIMIT != Word32(whole, t + 4)
          then StreamFailed(IntegrityError)
          else GzFrom(h, whole, t + 8, out + member, members + 1)
  }

  /** The eight bytes of a trailer, as two numbers. */
  method ReadTrailerBytes(sb: StreamBuf) returns (r: Option<(nat, nat)>)
    requires sb.Valid() && sb.bitOff == 0
    modifies sb
    ensures sb.Valid() && sb.bitOff == 0
    ensures var t := old(sb.drained);
      if t + 8 > |sb.whole| then r == None
      else r == Some((Word32(sb.whole, t), Word32(sb.whole, t + 4))) && sb.drained == t + 8
  {
    var ok := sb.FillAtLeast(8);
    if !ok {
      return None;
    }
    var buf := sb.buf;
    ghost var t := sb.drained;
    assert forall i | 0 <= i < 8 :: buf[i] == sb.whole[t + i];
    r := Some((Word32(buf, 0), Word32(buf, 4)));
    sb.Drain(8, 0);
  }

  /** One member: header, blocks, trailer. `None` means go on. */
  method ReadOne(sb: StreamBuf, h: Hasher, sink0: seq<seq<u8>>, ghost members: nat)
      returns (stop: Option<StreamError>, sink: seq<seq<u8>>)
    requires sb.Valid() && sb.bitOff == 0 && sb.drained < |sb.whole| && Lawful(h)
    modifies sb
    ensures sb.Valid()
    ensures var all := GzFrom(h, sb.whole, old(sb.drained), Flat(sink0), members);
      match stop
      case Some(e) => all == StreamFailed(e)
      case None =>
        && sb.bitOff == 0 && sb.drained > old(sb.drained)
        && all == GzFrom(h, sb.whole, sb.drained, Flat(sink), members + 1)
  {
    hide Flat, MemberFrom, ParseHeader, Word32, Lawful;
    sink := sink0;
    var header := sb.ReadGzipHeader();
    if header.Err? {
      return Some(ErrorOf(header.error)), sink;
    }
    ghost var start := sb.Position();
    MemberEnds(sb.whole, start, []);
    var r, crc, len;
    r, sink, crc, len := ReadMember(sb, h, sink0);
    if r.Err? {
      return Some(ErrorOf(r.error)), sink;
    }
    sb.ByteAlign();
    var trailer := ReadTrailerBytes(sb);
    if trailer.None? {
      return Some(ShortStream), sink;
    }
    if crc != trailer.value.0 || len % ISIZE_LIMIT != trailer.value.1 {
      return Some(IntegrityError), sink;
    }
    stop := None;
  }

  /** `read_gz_streaming`: whatever the sizes of the reads, the sink gets the members' bytes as the whole
      stream has them, and errors are those of the whole stream. */
  method ReadGzStreaming(coming: seq<seq<u8>>, h: Hasher) returns (sink: seq<seq<u8>>, error: Option<StreamError>)
    requires Lawful(h) && forall i | 0 <= i < |coming| :: coming[i] != []
    ensures GzFrom(h, Flat(coming), 0, [], 0) ==
      match error { case None => StreamDone(Flat(sink)) case Some(e) => StreamFailed(e) }
  {
    hide GzFrom, Flat, Lawful;
    var sb := new StreamBuf(coming);
    sink := [];
    assert Flat(sink) == [] by { FlatNone(); }
    var members := 0;
    var primed := sb.FillMore();
    while true
      invariant sb.Valid() && sb.bitOff == 0 && sb.whole == Flat(coming)
      invariant sb.buf == [] ==> sb.srcEof
      invariant GzFrom(h, sb.whole, sb.drained, Flat(sink), members) == GzFrom(h, sb.whole, 0, [], 0)
      decreases |sb.whole| - sb.drained
    {
      if sb.buf == [] {
        sb.AllBuffered();
        break;
      }
      var stop;
      stop, sink := ReadOne(sb, h, sink, members);
      if stop.Some? {
        return sink, stop;
      }
      members := members + 1;
      if sb.buf == [] && !sb.srcEof {
        var more := sb.FillMore();
      }
    }
    GzAtEnd(h, sb.whole, sb.drained, Flat(sink), members);
    error := if members == 0 then Some(ShortStream) else None;
  }

  lemma GzAtEnd(h: Hasher, whole: seq<u8>, pos: nat, out: seq<u8>, members: nat)
    requires pos >= |whole|
    ensures GzFrom(h, whole, pos, out, members) == if members == 0 then StreamFailed(ShortStream) else StreamDone(out)
  {
  }
}
