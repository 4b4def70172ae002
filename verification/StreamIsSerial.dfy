/** The streaming path is the serial decode: it delivers exactly when that finishes with all members right, and
    then the same bytes (lib.rs, pipeline.rs). */
module StreamIsSerial {
  import opened Words
  import opened BitStream
  import opened Lz77
  import opened Deflate
  import opened Kernels
  import opened Blocks
  import opened Walk
  import opened Digest
  import opened Output
  import opened Workers
  import opened SerialDecode
  import opened Pieces
  import opened GzipHeader
  import opened StreamReader

  /** A member's blocks from q on against the serial walk with that member in progress. */
  lemma {:induction false} MemberIsSerial(body: seq<u8>, hdr: HeaderParser, q: nat, done: seq<u8>, out: seq<u8>,
                                          bounds: seq<Boundary>)
    ensures var src := SourceOf(body, hdr);
      var s := SerialFrom(src, q, done + out, |done|, bounds, true);
      match MemberFrom(body, q, out)
      case Ok((member, end)) => s == AfterFinal(src, end, done + member, bounds) && q < end <= 8 * |body|
      case Err(_) => !s.Finished?
    decreases 8 * |body| - q
  {
    hide Forward, Apply, BlockAt, TrailerAt, StreamBlock, BlockRoom, ValidTokens;
    var src := SourceOf(body, hdr);
    var whole := done + out;
    assert whole[|done|..] == out && whole[..|done|] == done;
    BlockEnds(body, q, out);
    BlockForwardAt(src, q);
    StreamExactly(body, q, out);
    var b := src.block(q);
    assert b == BlockAt(body, q);
    var r := StreamBlock(body, q, out);
    if r.Ok? {
      TrailerForwardAt(src, b.end);
      if !b.final { MemberIsSerial(body, hdr, b.end, done, r.value.1, bounds); }
    } else if b.Block? && Apply(out, b.tokens).Some? {
      RoomyBody(body, hdr);
      var next := Apply(out, b.tokens).value;
      TrailerForwardAt(src, b.end);
      if b.final {
        TrailerRoom(body, hdr, b.end);
      } else {
        SerialLate(src, b.end, done + next, |done|, bounds);
      }
    }
  }

  function Shifted(r: Result<(seq<u8>, nat)>, n: nat): Result<(seq<u8>, nat)> {
    match r
    case Err(e) => Err(e)
    case Ok((out, q)) => Ok((out, n + q))
  }

  /** Bytes in front of the stream change nothing. */
  lemma {:induction false} MemberShifts(whole: seq<u8>, n: nat, q: nat, out: seq<u8>)
    requires n <= |whole|
    ensures MemberFrom(whole, 8 * n + q, out) == Shifted(MemberFrom(whole[n..], q, out), 8 * n)
    decreases 8 * |whole| - q
  {
    hide StreamBlock;
    var body := whole[n..];
    PieceBlock(body, whole, n, q, out);
    BlockEnds(body, q, out);
    BlockEnds(whole, 8 * n + q, out);
    var r := StreamBlock(body, q, out);
    if r.Ok? && !r.value.0 {
      MemberShifts(whole, n, r.value.2, r.value.1);
      assert 8 * n + r.value.2 == StreamBlock(whole, 8 * n + q, out).value.2;
    }
  }

  /** The trailer at the end of a member, seen in the whole stream. */
  lemma TrailerShifts(whole: seq<u8>, n: nat, end: nat)
    requires n <= |whole| && end <= 8 * |whole[n..]|
    ensures var t, b := Aligned(end) / 8, whole[n..];
      && Aligned(8 * n + end) / 8 == n + t && |b| == |whole| - n
      && (t + 8 <= |b| ==>
            && Word32(whole, n + t) == Word32(b, t) && Word32(whole, n + t + 4) == Word32(b, t + 4)
            && whole[n + t + 8..] == b[t + 8..])
  {
  }

  /** From a member's header on, the streaming path and the serial walk deliver the same. */
  lemma {:induction false} GzIsSerial(h: Hasher, whole: seq<u8>, n: nat, pos: nat, m: nat, out: seq<u8>,
                                      bounds: seq<Boundary>, members: nat, all: seq<u8>)
    requires pos < |whole| && ParseHeader(whole[pos..]) == Parsed(m) && n <= pos + m <= |whole|
    requires Ordered(bounds, |out|) && StartOf(bounds, |bounds|) == |out| && AllOk(h, out, bounds)
    ensures GzFrom(h, whole, pos, out, members) == StreamDone(all) <==>
      var s := SerialFrom(SourceOf(whole[n..], HeaderLength), 8 * (pos + m - n), out, |out|, bounds, true);
      s.Finished? && s.out == all && Checked(h, s.out, s.bounds)
    ensures var s := SerialFrom(SourceOf(whole[n..], HeaderLength), 8 * (pos + m - n), out, |out|, bounds, true);
      s.Finished? && !Checked(h, s.out, s.bounds) ==>
        GzFrom(h, whole, pos, out, members) == StreamFailed(IntegrityError)
    decreases |whole| - pos
  {
    hide Forward, SerialFrom, MemberFrom, TrailerAt, AllOk, Ordered, StartOf, Word32, ParseHeader, BlockAt;
    var body := whole[n..];
    var src := SourceOf(body, HeaderLength);
    var q := 8 * (pos + m - n);
    MemberEnds(whole, 8 * (pos + m), []);
    MemberShifts(whole, n, q, []);
    assert 8 * n + q == 8 * (pos + m);
    MemberIsSerial(body, HeaderLength, q, out, [], bounds);
    assert out + [] == out;
    var r := MemberFrom(body, q, []);
    if r.Ok? {
      var member, end := r.value.0, r.value.1;
      TrailerShifts(whole, n, end);
      var t := src.trailer(end);
      assert t == TrailerAt(body, HeaderLength, end);
      var tb := Aligned(end) / 8;
      TrailerCases(body, end);
      if tb + 8 <= |body| {
        AfterMember(h, whole, n, pos, m, out, bounds, members, all, member, end);
      }
    }
  }

  lemma TrailerCases(body: seq<u8>, end: nat)
    ensures var t, tb := TrailerAt(body, HeaderLength, end), Aligned(end) / 8;
      && (tb + 8 > |body| ==> t.NoTrailer?)
      && (tb + 8 <= |body| ==>
            if tb + 8 == |body| then t == LastMember(Word32(body, tb), Word32(body, tb + 4), 8 * (tb + 8))
            else match ParseHeader(body[tb + 8..])
              case Parsed(k) => t == NextMember(Word32(body, tb), Word32(body, tb + 4), 8 * (tb + 8 + k))
              case _ => t.NoTrailer?)
  {
  }

  lemma {:induction false} AfterMember(h: Hasher, whole: seq<u8>, n: nat, pos: nat, m: nat, out: seq<u8>,
                                       bounds: seq<Boundary>, members: nat, all: seq<u8>, member: seq<u8>, end: nat)
    requires pos < |whole| && ParseHeader(whole[pos..]) == Parsed(m) && n <= pos + m <= |whole|
    requires Ordered(bounds, |out|) && StartOf(bounds, |bounds|) == |out| && AllOk(h, out, bounds)
    requires MemberFrom(whole, 8 * (pos + m), []) == Ok((member, 8 * n + end))
    requires 8 * (pos + m - n) < end <= 8 * |whole[n..]| && Aligned(end) / 8 + 8 <= |whole[n..]|
    ensures GzFrom(h, whole, pos, out, members) == StreamDone(all) <==>
      var s := AfterFinal(SourceOf(whole[n..], HeaderLength), end, out + member, bounds);
      s.Finished? && s.out == all && Checked(h, s.out, s.bounds)
    ensures var s := AfterFinal(SourceOf(whole[n..], HeaderLength), end, out + member, bounds);
      s.Finished? && !Checked(h, s.out, s.bounds) ==>
        GzFrom(h, whole, pos, out, members) == StreamFailed(IntegrityError)
    decreases |whole| - pos, 0
  {
    hide Forward, SerialFrom, MemberFrom, TrailerAt, AllOk, Ordered, StartOf, Word32, ParseHeader, BlockAt;
    var body := whole[n..];
    var src := SourceOf(body, HeaderLength);
    MemberEnds(whole, 8 * (pos + m), []);
    TrailerShifts(whole, n, end);
    TrailerCases(body, end);
    var tb := Aligned(end) / 8;
    var t := src.trailer(end);
    assert t == TrailerAt(body, HeaderLength, end);
    var next := out + member;
    var crc, size := Word32(body, tb), Word32(body, tb + 4);
    var more := bounds + [Boundary(|next|, crc, size)];
    MemberChecked(h, out, member, bounds, LastMember(crc, size, 8 * (tb + 8)));
    if !t.NoTrailer? && !AllOk(h, next, more) {
      if t.NextMember? {
        TrailerForwardAt(src, end);
        SerialKeepsBad(src, t.first, h, next, more);
      }
    } else if t.NextMember? {
      TrailerForwardAt(src, end);
      var k := t.first / 8 - (tb + 8);
      HeaderFits(body[tb + 8..]);
      GzIsSerial(h, whole, n, n + tb + 8, k, next, more, members + 1, all);
      assert 8 * (n + tb + 8 + k - n) == t.first;
    }
  }

  lemma HeaderFits(input: seq<u8>)
    ensures var r := ParseHeader(input); r.Parsed? ==> 10 <= r.len <= |input|
  {
    hide ParseHeader;
  }

  /** The serial decode of the body finishes with these bytes and all members right. */
  ghost predicate SerialDelivers(h: Hasher, body: seq<u8>, out: seq<u8>) {
    var s := Serial(SourceOf(body, HeaderLength));
    s.Finished? && s.out == out && Checked(h, s.out, s.bounds)
  }

  /** The streaming path delivers exactly when the header parses and the serial decode of what follows finishes
      with all members right; and then it delivers the same bytes. When the decode finishes with a member wrong,
      the path fails for that reason. */
  lemma StreamingIsSerial(h: Hasher, whole: seq<u8>, out: seq<u8>)
    ensures GzFrom(h, whole, 0, [], 0) == StreamDone(out) <==>
      ParseHeader(whole).Parsed? && SerialDelivers(h, whole[ParseHeader(whole).len..], out)
    ensures ParseHeader(whole).Parsed? ==>
      var s := Serial(SourceOf(whole[ParseHeader(whole).len..], HeaderLength));
      s.Finished? && !Checked(h, s.out, s.bounds) ==> GzFrom(h, whole, 0, [], 0) == StreamFailed(IntegrityError)
  {
    hide Forward, SerialFrom, MemberFrom, ParseHeader, Word32;
    assert whole[0..] == whole;
    if |whole| == 0 {
      EmptyIsShort(whole);
    } else if ParseHeader(whole).Parsed? {
      var n := ParseHeader(whole).len;
      GzIsSerial(h, whole, n, 0, n, [], [], 0, out);
    }
  }

  lemma EmptyIsShort(whole: seq<u8>)
    requires |whole| == 0
    ensures ParseHeader(whole) == Short
  {
  }
}
