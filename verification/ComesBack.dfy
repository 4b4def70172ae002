/** What is written as a gzip file comes back: for all members, blocks and symbols, by the serial decode, the
    streaming path, and the threads under every schedule. */
module ComesBack {
  import opened Words
  import opened BitStream
  import opened Lz77
  import opened Endings
  import opened Deflate
  import opened Walk
  import opened Digest
  import opened Output
  import opened Workers
  import opened SerialDecode
  import opened SafeInflate
  import opened GzipHeader
  import opened StreamReader
  import opened StreamIsSerial
  import opened Written
  import M = Machine
  import T = Threads
  import F = Format

  // Bits as bytes

  lemma ByteOfBit(bits: F.Bits, i: nat)
    requires |bits| == 8 && i < 8
    ensures Bit(F.ByteOf(bits), i) == bits[i]
  {
    hide Bit;
    var b7 := BitVal(bits[7]);
    var b6 := BitVal(bits[6]) + 2 * b7;
    var b5 := BitVal(bits[5]) + 2 * b6;
    var b4 := BitVal(bits[4]) + 2 * b5;
    var b3 := BitVal(bits[3]) + 2 * b4;
    var b2 := BitVal(bits[2]) + 2 * b3;
    var b1 := BitVal(bits[1]) + 2 * b2;
    assert F.ByteOf(bits) == BitVal(bits[0]) + 2 * b1;
    BitCons(bits[0], b1, i);
    if i >= 1 { BitCons(bits[1], b2, i - 1); }
    if i >= 2 { BitCons(bits[2], b3, i - 2); }
    if i >= 3 { BitCons(bits[3], b4, i - 3); }
    if i >= 4 { BitCons(bits[4], b5, i - 4); }
    if i >= 5 { BitCons(bits[5], b6, i - 5); }
    if i >= 6 { BitCons(bits[6], b7, i - 6); }
    if i >= 7 { BitCons(bits[7], 0, 0); }
  }

  /** Packed bits are the bits of the stream. */
  lemma PackedShows(body: seq<u8>, j: nat, bits: F.Bits)
    requires |bits| % 8 == 0 && j + |bits| / 8 <= |body| && body[j..j + |bits| / 8] == F.Packed(bits)
    ensures Shows(body, 8 * j, bits)
  {
    hide Bit, F.ByteOf;
    forall i | 0 <= i < |bits| ensures StreamBit(body, 8 * j + i) == bits[i] {
      var k := i / 8;
      assert (8 * j + i) / 8 == j + k && (8 * j + i) % 8 == i % 8;
      assert body[j + k] == body[j..j + |bits| / 8][k] == F.ByteOf(bits[8 * k..8 * k + 8]);
      ByteOfBit(bits[8 * k..8 * k + 8], i % 8);
    }
  }

  // A member's blocks

  /** Whole bytes in front change nothing about a block. */
  lemma BlockMoves(b: F.Block, final: bool, j: nat, p: nat)
    ensures F.IsBlock(b, 8 * j + p) == F.IsBlock(b, p)
    ensures F.IsBlock(b, p) ==>
      F.BlockBits(b, final, 8 * j + p) == F.BlockBits(b, final, p) && F.Tokens(b, 8 * j + p) == F.Tokens(b, p)
  {
    hide F.IsCodes, F.CanWriteAll, F.CodesBits, F.SymbolsBits, F.BytesBits, F.Num, F.FixedLiterals,
      F.FixedDistances;
    assert F.ToByte(8 * j + p + 3) == F.ToByte(p + 3);
  }

  /** Ten bits behind a block are room enough for its header. */
  lemma HeaderHasRoom(input: seq<u8>, p: nat)
    requires var b := SafeBlockAt(input, p); b.Block? && b.end + 10 <= 8 * |input|
    ensures BlockAt(input, p) == SafeBlockAt(input, p)
  {
    hide Val, HeaderAt, SafeHeaderAt, RunFrom, StoredFrom, FixedLit, FixedDist, LastLengthAt;
    BlocksAgree(input, p);
    if Val(input, p + 1, 2) == 2 {
      HeadersAgree(input, p + 3);
      var h := SafeHeaderAt(input, p + 3).value;
      RunFacts(h.lit, h.dist, input, h.end);
    }
  }

  /** The walk through blocks that are there. */
  lemma {:induction false} BlocksWalked(body: seq<u8>, hdr: HeaderParser, j: nat, p: nat, bs: seq<F.Block>,
                                        done: seq<u8>, out: seq<u8>, bounds: seq<Boundary>)
    requires F.AreBlocks(bs, p) && Shows(body, 8 * j + p, F.BlocksBits(bs, p))
    requires 8 * j + p + |F.BlocksBits(bs, p)| + 10 <= 8 * |body| && Apply(out, F.AllTokens(bs, p)).Some?
    ensures SerialFrom(SourceOf(body, hdr), 8 * j + p, done + out, |done|, bounds, true)
         == AfterFinal(SourceOf(body, hdr), 8 * j + p + |F.BlocksBits(bs, p)|,
                       done + Apply(out, F.AllTokens(bs, p)).value, bounds)
    decreases |bs|
  {
    hide Shows, SafeBlockAt, BlockAt, F.IsBlock, F.BlockBits, F.Tokens, Apply, TrailerAt, Forward, ValidTokens;
    var src := SourceOf(body, hdr);
    var q := 8 * j + p;
    var whole := done + out;
    assert whole[|done|..] == out && whole[..|done|] == done;
    var final := |bs| == 1;
    var bits := F.BlockBits(bs[0], final, p);
    BlockMoves(bs[0], final, j, p);
    if !final { ShowsCat(body, q, bits, F.BlocksBits(bs[1..], p + |bits|)); }
    BlockRead(body, q, bs[0], final);
    HeaderHasRoom(body, q);
    assert src.block(q) == Block(F.Tokens(bs[0], p), final, q + |bits|);
    BlockForwardAt(src, q);
    if final {
      TrailerForwardAt(src, q + |bits|);
    } else {
      ApplyAppend(out, F.Tokens(bs[0], p), F.AllTokens(bs[1..], p + |bits|));
      var next := Apply(out, F.Tokens(bs[0], p)).value;
      BlocksWalked(body, hdr, j, p + |bits|, bs[1..], done, next, bounds);
      assert q + |bits| == 8 * j + (p + |bits|);
    }
  }

  // The trailer

  /** The four low bytes of a number are the number modulo 2^32. */
  lemma WordOfFour(body: seq<u8>, t: nat, n: nat)
    requires t + 4 <= |body| && body[t..t + 4] == F.FourBytes(n)
    ensures Word32(body, t) == n % 4294967296
  {
    var f := F.FourBytes(n);
    assert body[t] == body[t..t + 4][0] == f[0] && body[t + 1] == body[t..t + 4][1] == f[1];
    assert body[t + 2] == body[t..t + 4][2] == f[2] && body[t + 3] == body[t..t + 4][3] == f[3];
    FourIs(n);
  }

  lemma FourIs(n: nat)
    ensures n % 256 + 256 * (n / 256 % 256) + 65536 * (n / 65536 % 256) + 16777216 * (n / 16777216 % 256)
         == n % 4294967296
  {
    var a := n / 256;
    var b := a / 256;
    var c := b / 256;
    assert n / 65536 == b && n / 16777216 == c && n / 4294967296 == c / 256;
    assert n == n % 256 + 256 * a && a == a % 256 + 256 * b && b == b % 256 + 256 * c && c == c % 256 + 256 * (c / 256);
  }

  /** The trailer that was written is read. */
  lemma TrailerRead(body: seq<u8>, t: nat, m: F.Member)
    requires t + 8 <= |body| && body[t..t + 8] == F.Trailer(m) && m.digest < 4294967296 && m.length < 4294967296
    ensures Word32(body, t) == m.digest && Word32(body, t + 4) == m.length
  {
    hide Word32, F.FourBytes;
    var tr := F.Trailer(m);
    assert body[t..t + 4] == body[t..t + 8][..4] == tr[..4] == F.FourBytes(m.digest);
    assert body[t + 4..t + 8] == body[t..t + 8][4..] == tr[4..] == F.FourBytes(m.length);
    WordOfFour(body, t, m.digest);
    WordOfFour(body, t + 4, m.length);
  }

  // Files

  /** Where the parts of a member lie. */
  lemma MemberParts(body: seq<u8>, j: nat, b: seq<u8>, t: seq<u8>, rest: seq<u8>)
    requires j <= |body| && body[j..] == b + t + rest
    ensures |body| == j + |b| + |t| + |rest| && body[j..j + |b|] == b
    ensures body[j + |b|..j + |b| + |t|] == t && body[j + |b| + |t|..] == rest
  {
    var all := body[j..];
    assert all == b + (t + rest);
    assert body[j..j + |b|] == all[..|b|];
    assert body[j + |b|..j + |b| + |t|] == all[|b|..|b| + |t|];
    assert body[j + |b| + |t|..] == all[|b| + |t|..];
  }

  /** The member in front is walked to its trailer. */
  lemma MemberWalked(body: seq<u8>, j: nat, m: F.Member, rest: seq<u8>, done: seq<u8>, bounds: seq<Boundary>)
    requires F.IsMember(m) && j <= |body| && body[j..] == F.MemberBody(m) + rest
    ensures var t := j + |F.BlocksBytes(m)|;
      && t + 8 + |rest| == |body| && body[t + 8..] == rest
      && Word32(body, t) == m.digest && Word32(body, t + 4) == m.length
      && exists end: nat ::
           && end <= 8 * |body| && Aligned(end) / 8 == t
           && SerialFrom(SourceOf(body, HeaderLength), 8 * j, done, |done|, bounds, true)
              == AfterFinal(SourceOf(body, HeaderLength), end, done + F.Data(m), bounds)
  {
    hide Shows, F.AreBlocks, F.BlocksBits, F.AllTokens, Apply, SerialFrom, AfterFinal, Word32, Forward, F.Packed,
      F.Trailer;
    var bits, b := F.BlocksBits(m.blocks, 0), F.BlocksBytes(m);
    var tr := F.Trailer(m);
    MemberParts(body, j, b, tr, rest);
    PackedShows(body, j, bits + m.fill);
    ShowsCat(body, 8 * j, bits, m.fill);
    BlocksWalked(body, HeaderLength, j, 0, m.blocks, done, [], bounds);
    assert done + [] == done && 8 * j + 0 == 8 * j;
    TrailerRead(body, j + |b|, m);
    var end := 8 * j + |bits|;
    assert Aligned(end) / 8 == j + |b|;
  }

  /** Members that were written are walked to the end; and when those before are right, all are right exactly
      when their trailers are. */
  lemma {:induction false} MembersWalked(h: Hasher, body: seq<u8>, j: nat, ms: seq<F.Member>, done: seq<u8>,
                                         bounds: seq<Boundary>)
    requires ms != [] && F.AreMembers(ms) && j <= |body|
    requires body[j..] == F.MemberBody(ms[0]) + F.FileBytes(ms[1..])
    requires Ordered(bounds, |done|) && StartOf(bounds, |bounds|) == |done|
    ensures var s := SerialFrom(SourceOf(body, HeaderLength), 8 * j, done, |done|, bounds, true);
      && s.Finished? && s.out == done + F.AllData(ms)
      && (AllOk(h, done, bounds) ==> (Checked(h, s.out, s.bounds) <==> F.AreRight(h.of, ms)))
    decreases |ms|
  {
    hide F.IsMember, F.Data, F.MemberBody, F.BlocksBytes, F.FileBytes, F.IsRight, SerialFrom, Word32, Forward, Ordered,
      AllOk, StartOf, TrailerAt, Proper, Layout, ParseHeader, BlockAt;
    var m, more := ms[0], ms[1..];
    var src := SourceOf(body, HeaderLength);
    MemberWalked(body, j, m, F.FileBytes(more), done, bounds);
    var t := j + |F.BlocksBytes(m)|;
    var end: nat :| end <= 8 * |body| && Aligned(end) / 8 == t
      && SerialFrom(src, 8 * j, done, |done|, bounds, true) == AfterFinal(src, end, done + F.Data(m), bounds);
    TrailerCases(body, end);
    assert src.trailer(end) == TrailerAt(body, HeaderLength, end);
    var next, all := done + F.Data(m), bounds + [Boundary(|done + F.Data(m)|, m.digest, m.length)];
    NextBound(h, m, done, bounds, t);
    RightFirst(h, ms);
    EmptyFile(more);
    if more == [] {
      assert F.AllData(ms) == F.Data(m) && done + F.Data(m) == next;
    } else {
      MembersGoOn(body, t + 8, more);
      TrailerForwardAt(src, end);
      var first := t + 8 + |Layout(more[0].fields)|;
      MembersWalked(h, body, first, more, next, all);
      assert next + F.AllData(more) == done + F.AllData(ms);
      if !AllOk(h, next, all) { SerialKeepsBad(src, 8 * first, h, next, all); }
    }
  }

  lemma EmptyFile(ms: seq<F.Member>)
    requires F.AreMembers(ms)
    ensures ms == [] ==> F.FileBytes(ms) == [] && F.AllData(ms) == []
  {
    hide F.IsMember, F.Data, F.MemberBody, Layout;
  }

  lemma RightFirst(h: Hasher, ms: seq<F.Member>)
    requires ms != [] && F.AreMembers(ms)
    ensures F.AreRight(h.of, ms) <==> F.IsRight(h.of, ms[0]) && F.AreRight(h.of, ms[1..])
  {
    hide F.IsMember, F.IsRight;
    var rest := ms[1..];
    if F.IsRight(h.of, ms[0]) && F.AreRight(h.of, rest) {
      forall i | 0 <= i < |ms| ensures F.IsRight(h.of, ms[i]) { if i > 0 { assert ms[i] == rest[i - 1]; } }
    }
    if F.AreRight(h.of, ms) {
      forall i | 0 <= i < |rest| ensures F.IsRight(h.of, rest[i]) { assert rest[i] == ms[i + 1]; }
    }
  }

  /** One member more, and whether it is right. */
  lemma NextBound(h: Hasher, m: F.Member, done: seq<u8>, bounds: seq<Boundary>, t: nat)
    requires F.IsMember(m) && Ordered(bounds, |done|) && StartOf(bounds, |bounds|) == |done|
    ensures var next, all := done + F.Data(m), bounds + [Boundary(|done + F.Data(m)|, m.digest, m.length)];
      && Ordered(all, |next|) && StartOf(all, |all|) == |next|
      && (AllOk(h, done, bounds) ==> (AllOk(h, next, all) <==> F.IsRight(h.of, m)))
  {
    hide F.IsMember, F.Data, Ordered, AllOk;
    var next := done + F.Data(m);
    OrderedGrows(bounds, |done|, |next|);
    OrderedSnoc(bounds, |next|, Boundary(|next|, m.digest, m.length));
    if AllOk(h, done, bounds) { MemberChecked(h, done, F.Data(m), bounds, LastMember(m.digest, m.length, 0)); }
  }

  lemma FieldsProper(m: F.Member)
    requires F.IsMember(m)
    ensures Proper(m.fields)
  {
    hide F.AreBlocks, F.BlocksBits, F.AllTokens, Proper;
  }

  /** The next header is found. */
  lemma MembersGoOn(body: seq<u8>, t: nat, ms: seq<F.Member>)
    requires ms != [] && F.AreMembers(ms) && t <= |body| && body[t..] == F.FileBytes(ms)
    ensures Proper(ms[0].fields)
    ensures var k := |Layout(ms[0].fields)|;
      && t + k <= |body| && t < |body| && ParseHeader(body[t..]) == Parsed(k)
      && body[t + k..] == F.MemberBody(ms[0]) + F.FileBytes(ms[1..])
  {
    hide F.MemberBody, ParseHeader, Layout, Proper, F.IsMember;
    FieldsProper(ms[0]);
    var l := Layout(ms[0].fields);
    var rest := F.MemberBody(ms[0]) + F.FileBytes(ms[1..]);
    assert body[t..] == l + rest;
    LayoutParses(ms[0].fields, rest);
    HeaderFits(body[t..]);
    assert body[t + |l|..] == body[t..][|l|..] == rest;
  }

  /** Every file that is written comes back, from the serial decode and from the streaming path, if and only if
      its trailers are right; and nothing else ever does. */
  lemma FilesComeBack(h: Hasher, ms: seq<F.Member>, out: seq<u8>)
    requires ms != [] && F.AreMembers(ms)
    ensures var whole := F.FileBytes(ms);
      && ParseHeader(whole).Parsed?
      && (SerialDelivers(h, whole[ParseHeader(whole).len..], out) <==> F.AreRight(h.of, ms) && out == F.AllData(ms))
      && (GzFrom(h, whole, 0, [], 0) == StreamDone(out) <==> F.AreRight(h.of, ms) && out == F.AllData(ms))
      && (!F.AreRight(h.of, ms) ==> GzFrom(h, whole, 0, [], 0) == StreamFailed(IntegrityError))
  {
    hide F.MemberBody, ParseHeader, Layout, Proper, F.IsMember, SerialFrom, Forward, GzFrom, F.FileBytes, F.AllData,
      F.AreRight;
    var whole := F.FileBytes(ms);
    assert whole[0..] == whole;
    MembersGoOn(whole, 0, ms);
    var n := ParseHeader(whole).len;
    assert whole[n..][0..] == whole[n..];
    MembersWalked(h, whole[n..], 0, ms, [], []);
    assert [] + F.AllData(ms) == F.AllData(ms);
    StreamingIsSerial(h, whole, out);
  }

  // What comes back was written

  lemma ByteIs(x: u8, y: u8)
    requires forall i: nat | i < 8 :: Bit(x, i) == Bit(y, i)
    ensures x == y
  {
    hide Bit, Low;
    assert Pow2(8) == 256;
    LowExt(x, y, 8);
    LowSmall(x, 8);
    LowSmall(y, 8);
  }

  /** Bytes that show the bits are the packed bits. */
  lemma ShowsPacked(body: seq<u8>, j: nat, bits: F.Bits)
    requires |bits| % 8 == 0 && Shows(body, 8 * j, bits)
    ensures j + |bits| / 8 <= |body| && body[j..j + |bits| / 8] == F.Packed(bits)
  {
    hide Bit, F.ByteOf;
    forall k: nat | k < |bits| / 8 ensures body[j + k] == F.Packed(bits)[k] {
      var eight := bits[8 * k..8 * k + 8];
      forall i: nat | i < 8 ensures Bit(body[j + k], i) == Bit(F.ByteOf(eight), i) {
        ByteOfBit(eight, i);
        assert (8 * j + (8 * k + i)) / 8 == j + k && (8 * j + (8 * k + i)) % 8 == i;
        assert StreamBit(body, 8 * j + (8 * k + i)) == bits[8 * k + i] == eight[i];
      }
      ByteIs(body[j + k], F.ByteOf(eight));
    }
  }

  /** A walk that finishes went through blocks that are there. */
  lemma {:induction false} ReadBlocks(body: seq<u8>, hdr: HeaderParser, j: nat, p: nat, done: seq<u8>, out: seq<u8>,
                                      bounds: seq<Boundary>) returns (bs: seq<F.Block>)
    requires SerialFrom(SourceOf(body, hdr), 8 * j + p, done + out, |done|, bounds, true).Finished?
    ensures F.AreBlocks(bs, p) && Shows(body, 8 * j + p, F.BlocksBits(bs, p)) && Apply(out, F.AllTokens(bs, p)).Some?
    ensures SerialFrom(SourceOf(body, hdr), 8 * j + p, done + out, |done|, bounds, true)
         == AfterFinal(SourceOf(body, hdr), 8 * j + p + |F.BlocksBits(bs, p)|,
                       done + Apply(out, F.AllTokens(bs, p)).value, bounds)
    decreases 8 * |body| - (8 * j + p)
  {
    hide Shows, SafeBlockAt, BlockAt, F.IsBlock, F.BlockBits, F.Tokens, Apply, TrailerAt, Forward, ValidTokens;
    var src := SourceOf(body, hdr);
    var q := 8 * j + p;
    var whole := done + out;
    assert whole[|done|..] == out && whole[..|done|] == done;
    BlockForwardAt(src, q);
    BlocksAgree(body, q);
    var r := src.block(q);
    assert r == BlockAt(body, q) == SafeBlockAt(body, q);
    var b := ReadBlock(body, q);
    BlockMoves(b, r.final, j, p);
    var bits := F.BlockBits(b, r.final, p);
    var next := Apply(out, F.Tokens(b, p)).value;
    if r.final {
      bs := [b];
      TrailerForwardAt(src, r.end);
    } else {
      assert r.end == 8 * j + (p + |bits|);
      var rest := ReadBlocks(body, hdr, j, p + |bits|, done, next, bounds);
      bs := [b] + rest;
      assert bs[1..] == rest && |bs| > 1;
      BlockBitsSize(b, p);
      ShowsCat(body, q, bits, F.BlocksBits(rest, p + |bits|));
      ApplyAppend(out, F.Tokens(b, p), F.AllTokens(rest, p + |bits|));
    }
  }

  lemma BlockBitsSize(b: F.Block, p: nat)
    requires F.IsBlock(b, p)
    ensures |F.BlockBits(b, false, p)| == |F.BlockBits(b, true, p)|
  {
    hide F.IsCodes, F.CanWriteAll, F.CodesBits, F.SymbolsBits, F.BytesBits, F.Num, F.FixedLiterals,
      F.FixedDistances;
  }

  /** Four bytes are those of the number they are read as. */
  lemma FourOfWord(body: seq<u8>, t: nat)
    requires t + 4 <= |body|
    ensures Word32(body, t) < 4294967296 && body[t..t + 4] == F.FourBytes(Word32(body, t))
  {
    var b0: int, b1: int, b2: int, b3: int := body[t], body[t + 1], body[t + 2], body[t + 3];
    var n := Word32(body, t);
    assert n / 256 == b1 + 256 * (b2 + 256 * b3) && n / 65536 == b2 + 256 * b3 && n / 16777216 == b3;
    assert body[t..t + 4] == [body[t], body[t + 1], body[t + 2], body[t + 3]];
  }

  /** Blocks that are there, filled up, and the trailer behind them make a member. */
  lemma MemberMade(body: seq<u8>, j: nat, f: Fields, bs: seq<F.Block>, fill: F.Bits) returns (m: F.Member)
    requires Proper(f) && F.AreBlocks(bs, 0) && |fill| == F.ToByte(|F.BlocksBits(bs, 0)|)
    requires Apply([], F.AllTokens(bs, 0)).Some? && Shows(body, 8 * j, F.BlocksBits(bs, 0) + fill)
    requires j + (|F.BlocksBits(bs, 0)| + |fill|) / 8 + 8 <= |body|
    ensures F.IsMember(m) && m.fields == f && F.Data(m) == Apply([], F.AllTokens(bs, 0)).value
    ensures var t := j + (|F.BlocksBits(bs, 0)| + |fill|) / 8;
      body[j..t + 8] == F.MemberBody(m) && m.digest == Word32(body, t) && m.length == Word32(body, t + 4)
  {
    hide Shows, F.AreBlocks, F.BlocksBits, F.AllTokens, Apply, Word32, F.Packed, F.FourBytes, Proper;
    var bits := F.BlocksBits(bs, 0);
    var t := j + (|bits| + |fill|) / 8;
    ShowsPacked(body, j, bits + fill);
    FourOfWord(body, t);
    FourOfWord(body, t + 4);
    m := F.Member(f, bs, fill, Word32(body, t), Word32(body, t + 4));
    assert body[j..t + 8] == body[j..t] + (body[t..t + 4] + body[t + 4..t + 8]);
  }

  /** The member in front was written. */
  lemma ReadMemberBody(body: seq<u8>, j: nat, f: Fields, done: seq<u8>, bounds: seq<Boundary>)
      returns (m: F.Member, t: nat)
    requires Proper(f)
    requires SerialFrom(SourceOf(body, HeaderLength), 8 * j, done, |done|, bounds, true).Finished?
    ensures F.IsMember(m) && m.fields == f && j <= t && t + 8 <= |body|
    ensures body[j..t + 8] == F.MemberBody(m)
    ensures m.digest == Word32(body, t) && m.length == Word32(body, t + 4)
    ensures exists end: nat ::
      && Aligned(end) / 8 == t
      && SerialFrom(SourceOf(body, HeaderLength), 8 * j, done, |done|, bounds, true)
         == AfterFinal(SourceOf(body, HeaderLength), end, done + F.Data(m), bounds)
  {
    hide Shows, F.AreBlocks, F.BlocksBits, F.AllTokens, Apply, SerialFrom, Word32, Forward, F.IsMember, F.Data,
      F.MemberBody, Proper, HeaderLength, BlockAt;
    var src := SourceOf(body, HeaderLength);
    assert done + [] == done && 8 * j + 0 == 8 * j;
    var bs := ReadBlocks(body, HeaderLength, j, 0, done, [], bounds);
    var bits := F.BlocksBits(bs, 0);
    var end := 8 * j + |bits|;
    t := Aligned(end) / 8;
    TrailerCases(body, end);
    assert src.trailer(end) == TrailerAt(body, HeaderLength, end);
    var fill := FillThere(body, end, F.ToByte(|bits|));
    ShowsCat(body, 8 * j, bits, fill);
    assert t == j + (|bits| + |fill|) / 8;
    m := MemberMade(body, j, f, bs, fill);
  }

  /** And so were all members of a decode that finishes. */
  lemma {:induction false} ReadMembers(body: seq<u8>, j: nat, f: Fields, done: seq<u8>, bounds: seq<Boundary>)
      returns (ms: seq<F.Member>)
    requires Proper(f) && j <= |body|
    requires SerialFrom(SourceOf(body, HeaderLength), 8 * j, done, |done|, bounds, true).Finished?
    ensures ms != [] && F.AreMembers(ms) && ms[0].fields == f
    ensures body[j..] == F.MemberBody(ms[0]) + F.FileBytes(ms[1..])
    decreases |body| - j
  {
    hide F.IsMember, F.Data, F.MemberBody, SerialFrom, Word32, Forward, TrailerAt, Proper, Layout, ParseHeader,
      BlockAt;
    var src := SourceOf(body, HeaderLength);
    var m, t := ReadMemberBody(body, j, f, done, bounds);
    var end: nat :| Aligned(end) / 8 == t
      && SerialFrom(src, 8 * j, done, |done|, bounds, true) == AfterFinal(src, end, done + F.Data(m), bounds);
    TrailerCases(body, end);
    assert src.trailer(end) == TrailerAt(body, HeaderLength, end);
    var rest := body[t + 8..];
    assert body[j..] == body[j..t + 8] + rest;
    var none: seq<F.Member> := [];
    EmptyFile(none);
    if t + 8 == |body| {
      ms := [m];
      assert ms[1..] == none && rest == [];
    } else {
      HeaderFits(rest);
      var k := ParseHeader(rest).len;
      var g := ParsedIsLayout(rest);
      var next := done + F.Data(m);
      var all := bounds + [Boundary(|next|, Word32(body, t), Word32(body, t + 4))];
      var more := ReadMembers(body, t + 8 + k, g, next, all);
      ms := [m] + more;
      assert ms[1..] == more && body[t + 8 + k..] == rest[k..] && rest == rest[..k] + rest[k..];
      FileFirst(more);
      AreMore(m, more);
    }
  }

  lemma AreMore(m: F.Member, more: seq<F.Member>)
    requires F.IsMember(m) && F.AreMembers(more)
    ensures F.AreMembers([m] + more)
  {
    hide F.IsMember;
    forall i | 0 <= i < |[m] + more| ensures F.IsMember(([m] + more)[i]) {
      if i > 0 { assert ([m] + more)[i] == more[i - 1]; }
    }
  }

  lemma FileFirst(ms: seq<F.Member>)
    requires ms != [] && F.AreMembers(ms)
    ensures Proper(ms[0].fields)
    ensures F.FileBytes(ms) == Layout(ms[0].fields) + (F.MemberBody(ms[0]) + F.FileBytes(ms[1..]))
  {
    hide F.MemberBody, Layout, Proper, F.IsMember;
    FieldsProper(ms[0]);
  }

  /** The streaming path delivers exactly the files that can be written with right trailers, and their data. */
  lemma DeliveredIsWritten(h: Hasher, whole: seq<u8>, out: seq<u8>)
    ensures GzFrom(h, whole, 0, [], 0) == StreamDone(out) <==>
      exists ms ::
        && ms != [] && F.AreMembers(ms) && whole == F.FileBytes(ms)
        && F.AreRight(h.of, ms) && out == F.AllData(ms)
  {
    hide F.MemberBody, ParseHeader, Layout, Proper, F.IsMember, SerialFrom, Forward, GzFrom, F.FileBytes, F.AllData,
      F.AreRight;
    StreamingIsSerial(h, whole, out);
    if GzFrom(h, whole, 0, [], 0) == StreamDone(out) {
      HeaderFits(whole);
      var n := ParseHeader(whole).len;
      var f := ParsedIsLayout(whole);
      var body := whole[n..];
      var ms := ReadMembers(body, 0, f, [], []);
      assert body[0..] == body && whole == whole[..n] + body;
      FileFirst(ms);
      FilesComeBack(h, ms, out);
    }
    if exists ms :: ms != [] && F.AreMembers(ms) && whole == F.FileBytes(ms)
                    && F.AreRight(h.of, ms) && out == F.AllData(ms) {
      var ms :| ms != [] && F.AreMembers(ms) && whole == F.FileBytes(ms)
                && F.AreRight(h.of, ms) && out == F.AllData(ms);
      FilesComeBack(h, ms, out);
    }
  }

  // Any bytes, and the threads

  function Literals(data: seq<u8>): (ss: seq<F.Symbol>)
    ensures |ss| == |data|
  {
    seq(|data|, i requires 0 <= i < |data| => F.Literal(data[i]))
  }

  lemma {:induction false} LiteralsAre(out: seq<u8>, data: seq<u8>)
    ensures Apply(out, F.Meanings(Literals(data))) == Some(out + data)
    decreases |data|
  {
    var ts := F.Meanings(Literals(data));
    if data == [] {
      assert ts == [] && out + data == out;
    } else {
      assert ts[0] == Lit(data[0]) && ts[1..] == F.Meanings(Literals(data[1..]));
      LiteralsAre(out + [data[0]], data[1..]);
      assert out + [data[0]] + data[1..] == out + data;
    }
  }

  lemma LiteralsCan(data: seq<u8>)
    ensures F.CanWriteAll(F.FixedLiterals(), F.FixedDistances(), Literals(data))
  {
    SameFixed();
    hide F.FixedLiterals, F.FixedDistances, FixedLit, FixedDist;
    FixedSizes();
    FixedLengthsAre(256);
    forall i | 0 <= i < |data| ensures F.HasCode(FixedLit(), data[i]) { FixedLengthsAre(data[i]); }
  }

  /** Every string of bytes is the data of some member with a right trailer. */
  lemma AnyBytesHaveAFile(h: Hasher, f: Fields, data: seq<u8>) returns (m: F.Member)
    requires Proper(f) && h.of(data) < 4294967296
    ensures F.IsMember(m) && m.fields == f && F.Data(m) == data && F.IsRight(h.of, m)
  {
    hide Apply, F.FixedLiterals, F.FixedDistances, F.SymbolsBits, Proper, F.CanWriteAll, F.Meanings;
    LiteralsCan(data);
    LiteralsAre([], data);
    assert [] + data == data;
    var b := F.Fixed(Literals(data));
    var bs := [b];
    assert F.AreBlocks(bs, 0);
    assert F.AllTokens(bs, 0) == F.Meanings(Literals(data));
    var n := F.ToByte(|F.BlocksBits(bs, 0)|);
    m := F.Member(f, bs, seq(n, _ => false), h.of(data), |data| % 4294967296);
  }

  /** Under every schedule of the threads, with a consumer that keeps receiving, a file that is written comes
      back if and only if its trailers are right. */
  lemma FilesComeBackThroughThreads(e: T.Setting, ws: seq<T.World>, steps: seq<M.Action>, ms: seq<F.Member>)
    requires ms != [] && F.AreMembers(ms) && ParseHeader(F.FileBytes(ms)).Parsed?
    requires var whole := F.FileBytes(ms);
      e.src == SourceOf(whole[ParseHeader(whole).len..], HeaderLength)
    requires T.Proper(e) && T.WorldRun(e, ws, steps) && !T.CanGoOn(e, ws[|steps|])
    requires ws[|steps|].s.ending != Some(SinkClosed)
    ensures var w := ws[|steps|];
      && (w.s.ending == Some(Success) <==> F.AreRight(e.h.of, ms))
      && (w.s.ending == Some(Success) ==> Flat(w.sink) == F.AllData(ms))
  {
    hide F.MemberBody, ParseHeader, Layout, Proper, F.IsMember, SerialFrom, Forward, F.FileBytes, F.AllData, F.AreRight,
      T.Proper, T.WorldRun, T.CanGoOn, Flat, Checked;
    var whole := F.FileBytes(ms);
    assert whole[0..] == whole;
    MembersGoOn(whole, 0, ms);
    var body := whole[ParseHeader(whole).len..];
    assert body[0..] == body;
    MembersWalked(e.h, body, 0, ms, [], []);
    assert [] + F.AllData(ms) == F.AllData(ms);
    T.EveryScheduleIsSerial(e, ws, steps);
  }
}
