/** The formats as RFC 1951 and RFC 1952 write them: which bits stand for a number, a symbol, a block and a
    file. Nothing here looks at how they are read. */
module Format {
  import opened Words
  import opened Canonical
  import opened Lz77
  import opened GzipHeader

  // Bits

  type Bits = seq<bool>

  /** A number of n bits, least significant bit first. */
  function Num(x: nat, n: nat): (bits: Bits)
    ensures |bits| == n
  {
    if n == 0 then [] else [x % 2 == 1] + Num(x / 2, n - 1)
  }

  /** A Huffman code of n bits, most significant bit first (section 3.1.1 of RFC 1951). */
  function CodeBits(c: nat, n: nat): (bits: Bits)
    ensures |bits| == n
  {
    if n == 0 then [] else CodeBits(c / 2, n - 1) + [c % 2 == 1]
  }

  /** The code of a symbol. */
  function Huff(lengths: seq<nat>, s: nat): (bits: Bits)
    requires s < |lengths|
    ensures |bits| == lengths[s]
  {
    CodeBits(Code(lengths, s), lengths[s])
  }

  predicate HasCode(lengths: seq<nat>, s: nat) {
    s < |lengths| && lengths[s] > 0
  }

  /** The share of the code space that the first n symbols take, in 2^-15. */
  function Taken(lengths: seq<nat>, n: nat): nat
    requires n <= |lengths|
  {
    if n == 0 then 0
    else Taken(lengths, n - 1) + (if 1 <= lengths[n - 1] <= 15 then Pow2(15 - lengths[n - 1]) else 0)
  }

  /** Code lengths that make a prefix code, complete or not. */
  predicate IsCode(lengths: seq<nat>) {
    (forall i | 0 <= i < |lengths| :: lengths[i] <= 15) && Taken(lengths, |lengths|) <= 32768
  }

  // Literals and matches (section 3.2.5)

  /** A literal; or a length symbol and a distance symbol, each with its extra bits. */
  datatype Symbol = Literal(byte: u8) | Match(len: nat, lenExtra: nat, dist: nat, distExtra: nat)

  function LengthBits(s: nat): nat {
    if s < 265 || s == 285 then 0 else (s - 261) / 4
  }

  /** The lengths of a symbol begin here: one apiece up to 264, then four groups of each size, then 258. */
  function FirstLength(s: nat): nat
    requires 257 <= s <= 285
  {
    if s == 285 then 258
    else if s < 265 then s - 254
    else 3 + (4 + (s - 265) % 4) * Pow2((s - 261) / 4)
  }

  function DistanceBits(d: nat): nat {
    if d < 4 then 0 else d / 2 - 1
  }

  function FirstDistance(d: nat): nat {
    if d < 4 then d + 1 else 1 + (2 + d % 2) * Pow2(d / 2 - 1)
  }

  predicate IsSymbol(s: Symbol) {
    match s
    case Literal(_) => true
    case Match(l, x, d, y) =>
      257 <= l <= 285 && x < Pow2(LengthBits(l)) && d < 30 && y < Pow2(DistanceBits(d))
  }

  function Meaning(s: Symbol): Token
    requires IsSymbol(s)
  {
    match s
    case Literal(b) => Lit(b)
    case Match(l, x, d, y) => Copy(FirstLength(l) + x, FirstDistance(d) + y)
  }

  predicate CanWrite(lit: seq<nat>, dist: seq<nat>, s: Symbol) {
    && IsSymbol(s)
    && match s
       case Literal(b) => HasCode(lit, b)
       case Match(l, _, d, _) => HasCode(lit, l) && HasCode(dist, d)
  }

  function SymbolBits(lit: seq<nat>, dist: seq<nat>, s: Symbol): Bits
    requires CanWrite(lit, dist, s)
  {
    match s
    case Literal(b) => Huff(lit, b)
    case Match(l, x, d, y) => Huff(lit, l) + Num(x, LengthBits(l)) + Huff(dist, d) + Num(y, DistanceBits(d))
  }

  ghost predicate CanWriteAll(lit: seq<nat>, dist: seq<nat>, ss: seq<Symbol>) {
    HasCode(lit, 256) && forall i | 0 <= i < |ss| :: CanWrite(lit, dist, ss[i])
  }

  /** The symbols of a block and the end of it. */
  ghost function SymbolsBits(lit: seq<nat>, dist: seq<nat>, ss: seq<Symbol>): Bits
    requires CanWriteAll(lit, dist, ss)
  {
    if ss == [] then Huff(lit, 256) else SymbolBits(lit, dist, ss[0]) + SymbolsBits(lit, dist, ss[1..])
  }

  ghost function Meanings(ss: seq<Symbol>): seq<Token>
    requires forall i | 0 <= i < |ss| :: IsSymbol(ss[i])
  {
    seq(|ss|, i requires 0 <= i < |ss| => Meaning(ss[i]))
  }

  // Code lengths (section 3.2.7)

  /** A code length; or the previous one 3 to 6 times more, or 3 to 10 zeros, or 11 to 138. */
  datatype Item = Length(len: nat) | Again(times: nat) | FewZeros(times: nat) | ManyZeros(times: nat)

  predicate IsItem(it: Item) {
    match it
    case Length(l) => l <= 15
    case Again(n) => 3 <= n <= 6
    case FewZeros(n) => 3 <= n <= 10
    case ManyZeros(n) => 11 <= n <= 138
  }

  function ItemSymbol(it: Item): nat {
    match it
    case Length(l) => l
    case Again(_) => 16
    case FewZeros(_) => 17
    case ManyZeros(_) => 18
  }

  /** What follows the symbol: nothing, two bits, three, or seven. */
  function ItemExtra(it: Item): Bits
    requires IsItem(it)
  {
    match it
    case Length(_) => []
    case Again(n) => Num(n - 3, 2)
    case FewZeros(n) => Num(n - 3, 3)
    case ManyZeros(n) => Num(n - 11, 7)
  }

  /** The lengths written so far and what the item adds; nothing comes before the first. */
  function Added(acc: seq<nat>, it: Item): seq<nat> {
    match it
    case Length(l) => acc + [l]
    case Again(n) => if acc == [] then acc else acc + seq(n, _ => acc[|acc| - 1])
    case FewZeros(n) => acc + seq(n, _ => 0)
    case ManyZeros(n) => acc + seq(n, _ => 0)
  }

  predicate CanItem(cl: seq<nat>, it: Item) {
    IsItem(it) && HasCode(cl, ItemSymbol(it))
  }

  /** The items write `all`, continuing `acc`, in the code cl. */
  ghost predicate Spells(cl: seq<nat>, items: seq<Item>, acc: seq<nat>, all: seq<nat>)
    decreases |items|
  {
    if items == [] then acc == all
    else
      && CanItem(cl, items[0]) && (items[0].Again? ==> acc != [])
      && Spells(cl, items[1..], Added(acc, items[0]), all)
  }

  function ItemBits(cl: seq<nat>, it: Item): Bits
    requires CanItem(cl, it)
  {
    Huff(cl, ItemSymbol(it)) + ItemExtra(it)
  }

  ghost function ItemsBits(cl: seq<nat>, items: seq<Item>): Bits
    requires forall i | 0 <= i < |items| :: CanItem(cl, items[i])
  {
    if items == [] then [] else ItemBits(cl, items[0]) + ItemsBits(cl, items[1..])
  }

  /** The i-th code length code to be written: 16, 17, 18, 0, and then from 8 outwards. */
  function InOrder(i: nat): (s: nat)
    ensures i < 19 ==> s < 19
  {
    if i < 3 then 16 + i else if i == 3 then 0 else if i % 2 == 0 then 6 + i / 2 else if i < 18 then 9 - i / 2 else 0
  }

  /** k lengths of the code length code from the i-th on, three bits each. */
  function OrderBits(cl: seq<nat>, i: nat, k: nat): Bits
    requires |cl| == 19 && i + k <= 19
    decreases k
  {
    if k == 0 then [] else Num(cl[InOrder(i)], 3) + OrderBits(cl, i + 1, k - 1)
  }

  /** The codes of a dynamic block: for literals and lengths, for distances, and for their code lengths, of
      which the first `sent` are sent; and the items. */
  datatype Codes = Codes(lit: seq<nat>, dist: seq<nat>, cl: seq<nat>, sent: nat, items: seq<Item>)

  ghost predicate IsCodes(c: Codes) {
    && 257 <= |c.lit| <= 286 && 1 <= |c.dist| <= 30 && IsCode(c.lit) && IsCode(c.dist) && c.lit[256] > 0
    && |c.cl| == 19 && IsCode(c.cl) && 4 <= c.sent <= 19
    && (forall i | 0 <= i < 19 :: c.cl[i] < 8)
    && (forall i: nat | c.sent <= i < 19 :: c.cl[InOrder(i)] == 0)
    && (forall i | 0 <= i < |c.items| :: CanItem(c.cl, c.items[i]))
    && Spells(c.cl, c.items, [], c.lit + c.dist)
  }

  ghost function CodesBits(c: Codes): Bits
    requires IsCodes(c)
  {
    Num(|c.lit| - 257, 5) + Num(|c.dist| - 1, 5) + Num(c.sent - 4, 4)
    + OrderBits(c.cl, 0, c.sent) + ItemsBits(c.cl, c.items)
  }

  // Blocks (section 3.2.3)

  /** Bytes as they are, after bits that fill up the byte; or symbols in the fixed or in their own codes. */
  datatype Block = Stored(fill: Bits, bytes: seq<u8>) | Fixed(symbols: seq<Symbol>)
                 | Dynamic(codes: Codes, symbols: seq<Symbol>)

  /** Bits from p to the next byte. */
  function ToByte(p: nat): (n: nat)
    ensures n < 8 && (p + n) % 8 == 0
  {
    (8 - p % 8) % 8
  }

  /** The lengths of the fixed codes (section 3.2.6). */
  function FixedLiterals(): (l: seq<nat>)
    ensures |l| == 288
  {
    seq(144, _ => 8) + seq(112, _ => 9) + seq(24, _ => 7) + seq(8, _ => 8)
  }

  function FixedDistances(): (l: seq<nat>)
    ensures |l| == 30
  {
    seq(30, _ => 5)
  }

  /** A block that can stand at bit p. */
  ghost predicate IsBlock(b: Block, p: nat) {
    match b
    case Stored(fill, bytes) => |fill| == ToByte(p + 3) && |bytes| < 0x1_0000
    case Fixed(ss) => CanWriteAll(FixedLiterals(), FixedDistances(), ss)
    case Dynamic(c, ss) => IsCodes(c) && CanWriteAll(c.lit, c.dist, ss)
  }

  function BytesBits(bytes: seq<u8>): Bits {
    if bytes == [] then [] else Num(bytes[0], 8) + BytesBits(bytes[1..])
  }

  ghost function BlockBits(b: Block, final: bool, p: nat): Bits
    requires IsBlock(b, p)
  {
    match b
    case Stored(fill, bytes) =>
      [final, false, false] + fill + Num(|bytes|, 16) + Num(0xFFFF - |bytes|, 16) + BytesBits(bytes)
    case Fixed(ss) => [final, true, false] + SymbolsBits(FixedLiterals(), FixedDistances(), ss)
    case Dynamic(c, ss) => [final, false, true] + CodesBits(c) + SymbolsBits(c.lit, c.dist, ss)
  }

  ghost function Tokens(b: Block, p: nat): seq<Token>
    requires IsBlock(b, p)
  {
    match b
    case Stored(_, bytes) => seq(|bytes|, i requires 0 <= i < |bytes| => Lit(bytes[i]))
    case Fixed(ss) => Meanings(ss)
    case Dynamic(_, ss) => Meanings(ss)
  }

  // Streams of blocks

  /** Where a block that begins at bit p ends. */
  ghost function Behind(b: Block, p: nat): nat
    requires IsBlock(b, p)
  {
    p + |BlockBits(b, false, p)|
  }

  /** Blocks that can stand one after the other from bit p on; at least one. */
  ghost predicate AreBlocks(bs: seq<Block>, p: nat)
    decreases |bs|
  {
    bs != [] && IsBlock(bs[0], p) && (|bs| > 1 ==> AreBlocks(bs[1..], Behind(bs[0], p)))
  }

  /** Their bits; the last one is marked as final. */
  ghost function BlocksBits(bs: seq<Block>, p: nat): Bits
    requires AreBlocks(bs, p)
    decreases |bs|
  {
    if |bs| == 1 then BlockBits(bs[0], true, p)
    else BlockBits(bs[0], false, p) + BlocksBits(bs[1..], Behind(bs[0], p))
  }

  ghost function AllTokens(bs: seq<Block>, p: nat): seq<Token>
    requires AreBlocks(bs, p)
    decreases |bs|
  {
    if |bs| == 1 then Tokens(bs[0], p) else Tokens(bs[0], p) + AllTokens(bs[1..], Behind(bs[0], p))
  }

  // Files (section 2.2 of RFC 1952)

  /** Eight bits to a byte, the first one least significant. */
  function ByteOf(bits: Bits): u8
    requires |bits| == 8
  {
    var low := BitVal(bits[0]) + 2 * BitVal(bits[1]) + 4 * BitVal(bits[2]) + 8 * BitVal(bits[3]);
    low + 16 * BitVal(bits[4]) + 32 * BitVal(bits[5]) + 64 * BitVal(bits[6]) + 128 * BitVal(bits[7])
  }

  function Packed(bits: Bits): (r: seq<u8>)
    requires |bits| % 8 == 0
    ensures |r| == |bits| / 8
  {
    seq(|bits| / 8, j requires 0 <= j < |bits| / 8 => ByteOf(bits[8 * j..8 * j + 8]))
  }

  /** A number in four bytes, the low one first; what is above them is dropped. */
  function FourBytes(n: nat): (r: seq<u8>)
    ensures |r| == 4
  {
    [n % 256, n / 256 % 256, n / 65536 % 256, n / 16777216 % 256]
  }

  /** A member: the fields of its header, its blocks, the bits that fill up its last byte, and what its
      trailer says of digest and length. */
  datatype Member = Member(fields: Fields, blocks: seq<Block>, fill: Bits, digest: nat, length: nat)

  ghost predicate IsMember(m: Member) {
    && Proper(m.fields) && AreBlocks(m.blocks, 0)
    && |m.fill| == ToByte(|BlocksBits(m.blocks, 0)|)
    && Apply([], AllTokens(m.blocks, 0)).Some?
    && m.digest < 4294967296 && m.length < 4294967296
  }

  /** What the member holds. */
  ghost function Data(m: Member): seq<u8>
    requires IsMember(m)
  {
    Apply([], AllTokens(m.blocks, 0)).value
  }

  /** The trailer is right: it says the digest of the data, and their length modulo 2^32 (section 2.3.1). */
  ghost predicate IsRight(digest: seq<u8> -> nat, m: Member)
    requires IsMember(m)
  {
    m.digest == digest(Data(m)) && m.length == |Data(m)| % 4294967296
  }

  function FilledUp(bits: Bits, fill: Bits): (r: seq<u8>)
    requires |fill| == ToByte(|bits|)
    ensures 8 * |r| == |bits| + |fill|
  {
    Packed(bits + fill)
  }

  ghost function BlocksBytes(m: Member): seq<u8>
    requires IsMember(m)
  {
    FilledUp(BlocksBits(m.blocks, 0), m.fill)
  }

  function Trailer(m: Member): (r: seq<u8>)
    ensures |r| == 8
  {
    FourBytes(m.digest) + FourBytes(m.length)
  }

  /** After the header: the blocks, and the trailer. */
  ghost function MemberBody(m: Member): seq<u8>
    requires IsMember(m)
  {
    BlocksBytes(m) + Trailer(m)
  }

  ghost predicate AreMembers(ms: seq<Member>) {
    forall i | 0 <= i < |ms| :: IsMember(ms[i])
  }

  ghost predicate AreRight(digest: seq<u8> -> nat, ms: seq<Member>)
    requires AreMembers(ms)
  {
    forall i | 0 <= i < |ms| :: IsRight(digest, ms[i])
  }

  ghost function FileBytes(ms: seq<Member>): seq<u8>
    requires AreMembers(ms)
  {
    if ms == [] then [] else Layout(ms[0].fields) + MemberBody(ms[0]) + FileBytes(ms[1..])
  }

  ghost function AllData(ms: seq<Member>): seq<u8>
    requires AreMembers(ms)
  {
    if ms == [] then [] else Data(ms[0]) + AllData(ms[1..])
  }
}
