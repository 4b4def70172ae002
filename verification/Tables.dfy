/** The constant tables of RFC 1951 (deflate/tables.rs) and the packed table entry
    (deflate/huffman.rs). */
module Tables {
  import opened Words

  const CODE_LENGTH_ORDER: seq<nat> :=
    [16, 17, 18, 0, 8, 7, 9, 6, 10, 5, 11, 4, 12, 3, 13, 2, 14, 1, 15]

  /** Every entry of it is a place among the nineteen. */
  lemma OrderBelow(i: nat)
    requires i < 19
    ensures |CODE_LENGTH_ORDER| == 19 && CODE_LENGTH_ORDER[i] < 19
  {
  }

  const LENGTH_BASE: seq<nat> :=
    [3, 4, 5, 6, 7, 8, 9, 10, 11, 13, 15, 17, 19, 23, 27, 31, 35, 43, 51, 59, 67, 83, 99, 115, 131,
     163, 195, 227, 258]

  const LENGTH_EXTRA: seq<nat> :=
    [0, 0, 0, 0, 0, 0, 0, 0, 1, 1, 1, 1, 2, 2, 2, 2, 3, 3, 3, 3, 4, 4, 4, 4, 5, 5, 5, 5, 0]

  const DISTANCE_BASE: seq<nat> :=
    [1, 2, 3, 4, 5, 7, 9, 13, 17, 25, 33, 49, 65, 97, 129, 193, 257, 385, 513, 769, 1025, 1537,
     2049, 3073, 4097, 6145, 8193, 12289, 16385, 24577]

  const DISTANCE_EXTRA: seq<nat> :=
    [0, 0, 0, 0, 1, 1, 2, 2, 3, 3, 4, 4, 5, 5, 6, 6, 7, 7, 8, 8, 9, 9, 10, 10, 11, 11, 12, 12, 13,
     13]

  function LengthBase(s: nat): nat {
    if 257 <= s <= 285 then LENGTH_BASE[s - 257] else 0
  }

  function LengthExtra(s: nat): nat {
    if 257 <= s <= 285 then LENGTH_EXTRA[s - 257] else 0
  }

  function DistanceBase(s: nat): nat {
    if s <= 29 then DISTANCE_BASE[s] else 0
  }

  function DistanceExtra(s: nat): nat {
    if s <= 29 then DISTANCE_EXTRA[s] else 0
  }

  const MAX_DISTANCE: nat := 32768

  const MAX_LENGTH: nat := 258

  /** A length symbol with its extra bits copies 3 to 258 bytes. */
  lemma LengthRange(s: nat, extra: nat)
    requires 257 <= s <= 285 && extra < Pow2(LengthExtra(s))
    ensures LengthExtra(s) <= 5
    ensures 3 <= LengthBase(s) + extra <= MAX_LENGTH
  {
    assert Pow2(0) == 1 && Pow2(1) == 2 && Pow2(2) == 4 && Pow2(3) == 8 && Pow2(4) == 16 && Pow2(5) == 32;
  }

  /** A distance symbol with its extra bits reaches back 1 to 32768 bytes. */
  lemma DistanceRange(s: nat, extra: nat)
    requires s <= 29 && extra < Pow2(DistanceExtra(s))
    ensures DistanceExtra(s) <= 13
    ensures 1 <= DistanceBase(s) + extra <= MAX_DISTANCE
  {
    assert Pow2(0) == 1 && Pow2(1) == 2 && Pow2(2) == 4 && Pow2(3) == 8 && Pow2(4) == 16 && Pow2(5) == 32;
    assert Pow2(6) == 64 && Pow2(7) == 128 && Pow2(8) == 256 && Pow2(9) == 512 && Pow2(10) == 1024;
    assert Pow2(11) == 2048 && Pow2(12) == 4096 && Pow2(13) == 8192;
  }

  /** What a table entry stands for: the bare symbol, a literal/length symbol, or a distance. */
  datatype Encoding = Simple | LitLen | Dist

  /** The three fields of an entry: bits 31..16, 15..8 and 7..0. */
  function Pack(hi: nat, mid: nat, len: nat): nat {
    hi * 0x1_0000 + mid * 0x100 + len
  }

  /** `entry >> 16` */
  function Hi(e: nat): nat { e / 0x1_0000 }

  /** `(entry >> 8) & 0x1f` */
  function Extra(e: nat): nat { e / 0x100 % 0x20 }

  /** `entry & 0xff` */
  function LenOf(e: nat): nat { e % 0x100 }

  /** `entry & HUFFDEC_LITERAL != 0` */
  predicate IsLiteral(e: nat) { e / 0x8000_0000 % 2 == 1 }

  /** `entry & HUFFDEC_EXCEPTIONAL != 0` */
  predicate IsExceptional(e: nat) { e / 0x8000 % 2 == 1 }

  function EncodeEntry(sym: nat, len: nat, encoding: Encoding): nat {
    match encoding
    case Simple => Pack(sym, 0, len)
    case LitLen =>
      if sym < 256 then Pack(0x8000 + sym, 0, len)
      else if sym == 256 then Pack(0, 0x80, len)
      else if sym <= 285 then Pack(LengthBase(sym), LengthExtra(sym), len)
      else Pack(sym, 0x80, len)
    case Dist =>
      if sym <= 29 then Pack(DistanceBase(sym), DistanceExtra(sym), len)
      else Pack(0, 0x80, len)
  }

  /** The shifted or of the fields is the packed entry: the fields never overlap. */
  lemma PackIsOr(hi: nat, mid: nat, len: nat)
    requires mid < 0x100 && len < 0x100
    ensures Or(Or(Shl(hi, 16), Shl(mid, 8)), len) == Pack(hi, mid, len)
  {
    assert Pow2(8) == 0x100;
    FieldsDisjoint(hi, mid, len, 8);
    ShlFields(hi, mid);
  }

  lemma FieldsDisjoint(hi: nat, mid: nat, len: nat, k: nat)
    requires mid < Pow2(k) && len < Pow2(k)
    ensures Or(Or(Shl(hi, k + k), Shl(mid, k)), len) == Shl(hi, k + k) + Shl(mid, k) + len
  {
    hide Or, Low;
    LowOfShl(hi, k + k, k + k);
    ShlBound(mid, k, k);
    OrDisjoint(Shl(hi, k + k), Shl(mid, k), k + k);
    ShlShl(hi, k, k);
    ShlAdd(Shl(hi, k), mid, k);
    LowOfShl(Shl(hi, k) + mid, k, k);
    OrDisjoint(Shl(hi, k + k) + Shl(mid, k), len, k);
  }

  lemma {:induction false} ShlBound(x: nat, j: nat, k: nat)
    requires x < Pow2(j)
    ensures Shl(x, k) < Pow2(j + k)
  {
    if k > 0 { ShlBound(x, j, k - 1); }
  }

  lemma {:induction false} LowOfShl(x: nat, k: nat, n: nat)
    requires n <= k
    ensures Low(Shl(x, k), n) == 0
  {
    if n > 0 { LowOfShl(x, k - 1, n - 1); }
  }

  lemma ShlFields(hi: nat, mid: nat)
    ensures Shl(hi, 16) == hi * 0x1_0000 && Shl(mid, 8) == mid * 0x100
  {
    ShlEight(mid);
    ShlEight(hi);
    ShlEight(hi * 0x100);
    ShlShl(hi, 8, 8);
  }

  lemma ShlEight(x: nat)
    ensures Shl(x, 8) == x * 0x100
  {
    ShlFour(x);
    ShlFour(x * 16);
    ShlShl(x, 4, 4);
  }

  lemma ShlFour(x: nat)
    ensures Shl(x, 4) == x * 16
  {
    assert Shl(x, 2) == 2 * Shl(x, 1) == 4 * Shl(x, 0);
    assert Shl(x, 4) == 2 * Shl(x, 3) == 4 * Shl(x, 2);
  }

  /** Taking a packed entry apart. */
  lemma PackFields(hi: nat, mid: nat, len: nat)
    requires mid < 0x100 && len < 0x100 && hi < 0x1_0000
    ensures LenOf(Pack(hi, mid, len)) == len
    ensures Hi(Pack(hi, mid, len)) == hi
    ensures Extra(Pack(hi, mid, len)) == mid % 0x20
    ensures IsLiteral(Pack(hi, mid, len)) <==> hi >= 0x8000
    ensures IsExceptional(Pack(hi, mid, len)) <==> mid >= 0x80
  {
    var e := Pack(hi, mid, len);
    assert e / 0x1_0000 == hi;
    assert e / 0x100 == hi * 0x100 + mid;
    assert e / 0x8000_0000 == hi / 0x8000;
    assert e / 0x8000 == hi * 2 + mid / 0x80;
  }

  lemma TableFacts(s: nat)
    ensures LengthBase(s) <= 258 && LengthExtra(s) <= 5
    ensures DistanceBase(s) < 0x8000 && DistanceExtra(s) <= 13
  {
  }

  /** A bare entry is its symbol. */
  lemma SimpleEntry(s: nat, len: nat)
    requires s < 288 && len <= 15
    ensures Hi(EncodeEntry(s, len, Simple)) == s
  {
    PackFields(s, 0, len);
  }

  /** Every entry keeps its code length, which is never 0 for a symbol that has a code. */
  lemma EntryLen(sym: nat, len: nat, encoding: Encoding)
    requires 1 <= len <= 15 && sym < 288
    ensures LenOf(EncodeEntry(sym, len, encoding)) == len
    ensures EncodeEntry(sym, len, encoding) > 0
  {
    match encoding {
      case Simple => PackFields(sym, 0, len);
      case LitLen => EntryLitLen(sym, len);
      case Dist => EntryDist(sym, len);
    }
  }

  /** The decode loops read back from a literal/length entry what its symbol means. */
  lemma EntryLitLen(sym: nat, len: nat)
    requires 1 <= len <= 15 && sym < 288
    ensures var e := EncodeEntry(sym, len, LitLen);
      && LenOf(e) == len
      && (IsLiteral(e) <==> sym < 256)
      && (sym < 256 ==> Hi(e) % 0x100 == sym)
      && (sym >= 256 ==> (IsExceptional(e) <==> sym == 256 || sym > 285))
      && (sym >= 256 && IsExceptional(e) ==> (Hi(e) == 0 <==> sym == 256))
      && (257 <= sym <= 285 ==> Hi(e) % 0x200 == LengthBase(sym) && Extra(e) == LengthExtra(sym))
  {
    hide Pack, Hi, Extra, LenOf, IsLiteral, IsExceptional, LengthBase, LengthExtra;
    if sym < 256 {
      PackFields(0x8000 + sym, 0, len);
    } else if sym == 256 {
      PackFields(0, 0x80, len);
    } else if sym <= 285 {
      TableFacts(sym);
      PackFields(LengthBase(sym), LengthExtra(sym), len);
    } else {
      PackFields(sym, 0x80, len);
    }
  }

  /** ... and from a distance entry. */
  lemma EntryDist(sym: nat, len: nat)
    requires 1 <= len <= 15
    ensures var e := EncodeEntry(sym, len, Dist);
      && LenOf(e) == len
      && (IsExceptional(e) <==> sym > 29)
      && (sym <= 29 ==> Hi(e) == DistanceBase(sym) && Extra(e) == DistanceExtra(sym))
  {
    hide Pack, Hi, Extra, LenOf, IsExceptional, DistanceBase, DistanceExtra;
    if sym <= 29 {
      TableFacts(sym);
      PackFields(DistanceBase(sym), DistanceExtra(sym), len);
    } else {
      PackFields(0, 0x80, len);
    }
  }
}
