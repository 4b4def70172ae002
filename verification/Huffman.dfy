/** The table decoder of deflate/huffman.rs: a 10-bit direct table and a list of long codes, both
    keyed by the reversed code, which the builder carries along instead of reversing each code. */
module Huffman {
  import opened Words
  import opened BitStream
  import opened Canonical
  import opened Tables

  const LUT_BITS: nat := 10

  const LUT_SIZE: nat := 1024

  const MAX_SYMBOLS: nat := 288

  datatype LongCode = LongCode(reversed: nat, length: nat, entry: nat)

  /** The symbol, if any, whose code of at most 10 bits starts the window, as a table entry. */
  function ShortEntry(lengths: seq<nat>, encoding: Encoding, w: nat): nat {
    var s := Sym(lengths, w);
    if s >= 0 && lengths[s] <= LUT_BITS then EncodeEntry(s, lengths[s], encoding) else 0
  }

  function LongCodeOf(lengths: seq<nat>, encoding: Encoding, s: nat): LongCode
    requires s < |lengths|
  {
    LongCode(Reverse(Code(lengths, s), lengths[s]), lengths[s], EncodeEntry(s, lengths[s], encoding))
  }

  /** In canonical order, `sym` comes before the i-th symbol of length l. */
  predicate Before(lengths: seq<nat>, sym: nat, l: nat, i: nat)
    requires sym < |lengths|
  {
    lengths[sym] > 0 && (lengths[sym] < l || (lengths[sym] == l && CountTo(lengths, l, sym) < i))
  }

  /** What a table slot must hold once the symbols before (l, i) have been entered. */
  function Slot(lengths: seq<nat>, encoding: Encoding, idx: nat, l: nat, i: nat): nat {
    var s := Sym(lengths, idx);
    if s >= 0 && lengths[s] <= LUT_BITS && Before(lengths, s, l, i)
    then EncodeEntry(s, lengths[s], encoding) else 0
  }

  ghost predicate LongListed(lengths: seq<nat>, encoding: Encoding, longs: seq<LongCode>,
                             syms: seq<nat>, l: nat, i: nat)
  {
    && |longs| == |syms|
    && (forall j | 0 <= j < |syms| ::
          syms[j] < |lengths| && lengths[syms[j]] > LUT_BITS
          && longs[j] == LongCodeOf(lengths, encoding, syms[j]))
    && (forall s: nat | s < |lengths| && lengths[s] > LUT_BITS && Before(lengths, s, l, i) :: s in syms)
  }

  // The incremental reversed code

  lemma {:induction false} TopBitOps(x: nat, k: nat)
    requires x < Pow2(k)
    ensures And(x, Pow2(k)) == 0
    ensures Or(x, Pow2(k)) == x + Pow2(k)
    ensures And(x + Pow2(k), Pow2(k)) == Pow2(k)
    ensures Xor(x + Pow2(k), Pow2(k)) == x
  {
    if k > 0 {
      TopBitOps(x / 2, k - 1);
      assert (x + Pow2(k)) / 2 == x / 2 + Pow2(k - 1);
      assert Pow2(k) / 2 == Pow2(k - 1);
    }
  }

  /** The code's last bit is the reversal's top bit: one carry step clears it, ... */
  lemma CarryOne(d: nat, k: nat)
    requires k > 0 && d % 2 == 1
    ensures And(Reverse(d, k), Pow2(k - 1)) != 0
    ensures Xor(Reverse(d, k), Pow2(k - 1)) == Reverse(d / 2, k - 1)
    ensures Reverse(d + 1, k) == Reverse(d / 2 + 1, k - 1)
  {
    ReverseBound(d / 2, k - 1);
    ShlOne(k - 1);
    TopBitOps(Reverse(d / 2, k - 1), k - 1);
    assert (d + 1) / 2 == d / 2 + 1;
  }

  /** ... and the last one sets it. */
  lemma CarryZero(d: nat, k: nat)
    requires k > 0 && d % 2 == 0
    ensures And(Reverse(d, k), Pow2(k - 1)) == 0
    ensures Or(Reverse(d, k), Pow2(k - 1)) == Reverse(d + 1, k)
  {
    ReverseBound(d / 2, k - 1);
    ShlOne(k - 1);
    TopBitOps(Reverse(d / 2, k - 1), k - 1);
    assert (d + 1) / 2 == d / 2;
  }

  /** Adding one to a code, on its reversal: clear ones from the top down, then set the first zero.
      A code of all ones wraps to zero. */
  method NextReversed(rev0: nat, highBit: nat, ghost c: nat, ghost l: nat) returns (rev: nat)
    requires l > 0 && highBit == Pow2(l - 1)
    requires rev0 == Reverse(c, l)
    ensures rev == Reverse(c + 1, l)
  {
    rev := rev0;
    var bit := highBit;
    ghost var d, k := c, l;
    while And(rev, bit) != 0
      invariant rev == Reverse(d, k)
      invariant bit == if k > 0 then Pow2(k - 1) else 0
      invariant Reverse(c + 1, l) == Reverse(d + 1, k)
      decreases k
    {
      if d % 2 == 0 && k > 0 { CarryZero(d, k); }
      CarryOne(d, k);
      rev := Xor(rev, bit);
      bit := bit / 2;
      d, k := d / 2, k - 1;
    }
    if k > 0 && d % 2 == 0 { CarryZero(d, k); }
    if k > 0 && d % 2 == 1 { CarryOne(d, k); }
    rev := Or(rev, bit);
  }

  /** Moving on to longer codes appends a zero bit, which leaves the reversal as it is. */
  lemma LengthenReversed(lengths: seq<nat>, l: nat)
    ensures Reverse(First(lengths, l + 1), l + 1) == Reverse(First(lengths, l) + Count(lengths, l), l)
  {
    ShlOne(l);
    assert First(lengths, l + 1) == 2 * (First(lengths, l) + Count(lengths, l));
  }

  // Counting sort

  lemma {:induction false} OffsetMono(lengths: seq<nat>, l: nat, m: nat)
    requires l <= m
    ensures Offset(lengths, l) <= Offset(lengths, m)
  {
    if l < m { OffsetMono(lengths, l, m - 1); }
  }

  /** Coded symbols shorter than l among the first n. */
  function ShorterTo(lengths: seq<nat>, l: nat, n: nat): nat
    requires n <= |lengths|
  {
    if l <= 1 then 0 else ShorterTo(lengths, l - 1, n) + CountTo(lengths, l - 1, n)
  }

  lemma {:induction false} ShorterStep(lengths: seq<nat>, l: nat, n: nat)
    requires 0 < n <= |lengths|
    ensures ShorterTo(lengths, l, n) ==
            ShorterTo(lengths, l, n - 1) + (if 0 < lengths[n - 1] < l then 1 else 0)
  {
    if l > 1 { ShorterStep(lengths, l - 1, n); }
  }

  lemma {:induction false} ShorterBound(lengths: seq<nat>, l: nat, n: nat)
    requires n <= |lengths|
    ensures ShorterTo(lengths, l, n) <= n
  {
    if n > 0 {
      ShorterBound(lengths, l, n - 1);
      ShorterStep(lengths, l, n);
    } else {
      ShorterNone(lengths, l);
    }
  }

  lemma {:induction false} ShorterNone(lengths: seq<nat>, l: nat)
    ensures ShorterTo(lengths, l, 0) == 0
  {
    if l > 1 { ShorterNone(lengths, l - 1); }
  }

  lemma {:induction false} OffsetIsShorter(lengths: seq<nat>, l: nat)
    ensures Offset(lengths, l) == ShorterTo(lengths, l, |lengths|)
  {
    if l > 1 { OffsetIsShorter(lengths, l - 1); }
    else if l == 1 { assert Offset(lengths, 1) == Offset(lengths, 0) + Count(lengths, 0); }
  }

  /** A symbol's place in canonical order. */
  function Place(lengths: seq<nat>, sym: nat): nat
    requires sym < |lengths|
  {
    Offset(lengths, lengths[sym]) + CountTo(lengths, lengths[sym], sym)
  }

  lemma PlaceBound(lengths: seq<nat>, sym: nat)
    requires sym < |lengths| && lengths[sym] > 0
    ensures Place(lengths, sym) < Offset(lengths, lengths[sym] + 1) <= |lengths|
  {
    RankBelow(lengths, sym);
    OffsetIsShorter(lengths, lengths[sym] + 1);
    ShorterBound(lengths, lengths[sym] + 1, |lengths|);
  }

  lemma PlaceInjective(lengths: seq<nat>, a: nat, b: nat)
    requires a < |lengths| && b < |lengths| && lengths[a] > 0 && lengths[b] > 0
    requires Place(lengths, a) == Place(lengths, b)
    ensures a == b
  {
    PlaceBound(lengths, a);
    PlaceBound(lengths, b);
    if lengths[a] < lengths[b] { OffsetMono(lengths, lengths[a] + 1, lengths[b]); }
    if lengths[b] < lengths[a] { OffsetMono(lengths, lengths[b] + 1, lengths[a]); }
    if a < b && lengths[a] == lengths[b] { RankInjective(lengths, a, b); }
    if b < a && lengths[a] == lengths[b] { RankInjective(lengths, b, a); }
  }

  /** Every coded symbol stands at its place. */
  ghost predicate SortedSymbols(lengths: seq<nat>, sorted: seq<nat>, n: nat)
    requires n <= |lengths|
  {
    forall s: nat | s < n && lengths[s] > 0 ::
      Place(lengths, s) < |sorted| && sorted[Place(lengths, s)] == s
  }

  /** How many symbols have each length; `None` when a length exceeds 15. */
  method CountLengths(lengths: seq<nat>) returns (ok: bool, blCount: array<nat>)
    ensures ok <==> ShortLengths(lengths)
    ensures fresh(blCount) && blCount.Length == 16
    ensures ok ==> forall l: nat | l <= 15 :: blCount[l] == Count(lengths, l)
  {
    blCount := new nat[16](_ => 0);
    var k := 0;
    while k < |lengths|
      invariant 0 <= k <= |lengths|
      invariant forall i | 0 <= i < k :: lengths[i] <= 15
      invariant forall l: nat | l <= 15 :: blCount[l] == CountTo(lengths, l, k)
    {
      if lengths[k] > MAX_CODE_LEN {
        return false, blCount;
      }
      blCount[lengths[k]] := blCount[lengths[k]] + 1;
      k := k + 1;
    }
    blCount[0] := 0;
    ok := true;
  }

  /** The Kraft sum and the number of coded symbols. */
  method SumLengths(lengths: seq<nat>, blCount: array<nat>) returns (total: nat, symbols: nat)
    requires blCount.Length == 16
    requires forall l: nat | l <= 15 :: blCount[l] == Count(lengths, l)
    ensures total == Kraft(lengths, 15, 15)
    ensures symbols == Offset(lengths, 16)
  {
    total, symbols := 0, 0;
    var l := 1;
    while l <= 15
      invariant 1 <= l <= 16
      invariant total == Kraft(lengths, l - 1, 15)
      invariant symbols == Offset(lengths, l)
    {
      total := total + Shl(blCount[l], 15 - l);
      symbols := symbols + blCount[l];
      l := l + 1;
    }
  }

  /** Where each length's bucket begins. */
  method BucketOffsets(lengths: seq<nat>, blCount: array<nat>) returns (cursors: array<nat>)
    requires blCount.Length == 16
    requires forall l: nat | l <= 15 :: blCount[l] == Count(lengths, l)
    ensures fresh(cursors) && cursors.Length == 17
    ensures forall m: nat | m <= 16 :: cursors[m] == Offset(lengths, m)
  {
    cursors := new nat[17](_ => 0);
    assert Offset(lengths, 1) == Offset(lengths, 0) + Count(lengths, 0);
    var l := 1;
    while l <= 15
      invariant 1 <= l <= 16
      invariant forall m: nat | m <= l :: cursors[m] == Offset(lengths, m)
    {
      cursors[l + 1] := cursors[l] + blCount[l];
      l := l + 1;
    }
  }

  /** One symbol more at its place leaves the others at theirs. */
  lemma SortStep(lengths: seq<nat>, sorted: seq<nat>, sym: nat)
    requires sym < |lengths| && lengths[sym] > 0
    requires |lengths| <= |sorted| && SortedSymbols(lengths, sorted, sym)
    ensures Place(lengths, sym) < |sorted|
    ensures SortedSymbols(lengths, sorted[Place(lengths, sym) := sym], sym + 1)
  {
    PlaceBound(lengths, sym);
    forall s: nat | s < sym && lengths[s] > 0 ensures Place(lengths, s) != Place(lengths, sym) {
      if Place(lengths, s) == Place(lengths, sym) { PlaceInjective(lengths, s, sym); }
    }
  }

  /** Symbols in canonical order. */
  method SortSymbols(lengths: seq<nat>, blCount: array<nat>) returns (sorted: array<nat>)
    requires ShortLengths(lengths) && |lengths| <= MAX_SYMBOLS
    requires blCount.Length == 16
    requires forall l: nat | l <= 15 :: blCount[l] == Count(lengths, l)
    ensures fresh(sorted) && sorted.Length == MAX_SYMBOLS
    ensures SortedSymbols(lengths, sorted[..], |lengths|)
  {
    hide Offset, First;
    sorted := new nat[MAX_SYMBOLS](_ => 0);
    var cursors := BucketOffsets(lengths, blCount);
    var sym: nat := 0;
    while sym < |lengths|
      invariant 0 <= sym <= |lengths|
      invariant forall m: nat | 1 <= m <= 15 :: cursors[m] == Offset(lengths, m) + CountTo(lengths, m, sym)
      invariant SortedSymbols(lengths, sorted[..], sym)
    {
      var len := lengths[sym];
      if len != 0 {
        SortStep(lengths, sorted[..], sym);
        ghost var before := sorted[..];
        sorted[cursors[len]] := sym;
        assert sorted[..] == before[Place(lengths, sym) := sym];
        cursors[len] := cursors[len] + 1;
      }
      sym := sym + 1;
    }
  }

  /** The symbol standing at the i-th place of length l has the i-th code of that length. */
  lemma SortedAt(lengths: seq<nat>, sorted: seq<nat>, l: nat, i: nat)
    requires SortedSymbols(lengths, sorted, |lengths|)
    requires l > 0 && i < Count(lengths, l)
    ensures Offset(lengths, l) + i < |sorted|
    ensures var s := sorted[Offset(lengths, l) + i];
      s < |lengths| && lengths[s] == l && CountTo(lengths, l, s) == i
  {
    var s := RankSurjective(lengths, l, i, |lengths|);
    assert Place(lengths, s) == Offset(lengths, l) + i;
  }

  method SymbolAt(lengths: seq<nat>, sorted: array<nat>, l: nat, start: nat, i: nat) returns (sym: nat)
    requires SortedSymbols(lengths, sorted[..], |lengths|)
    requires l > 0 && start == Offset(lengths, l) && i < Count(lengths, l)
    ensures sym < |lengths| && lengths[sym] == l && CountTo(lengths, l, sym) == i
    ensures Code(lengths, sym) == First(lengths, l) + i
  {
    SortedAt(lengths, sorted[..], l, i);
    sym := sorted[start + i];
  }

  /** The symbol whose code starts at bit p, or -1. */
  function SymAt(lengths: seq<nat>, input: seq<u8>, p: nat): (s: int)
    ensures s == -1 || (0 <= s < |lengths| && lengths[s] > 0)
  {
    Sym(lengths, Val(input, p, 15))
  }

  /** What `lookup` answers at bit p. */
  function LookupAt(lengths: seq<nat>, encoding: Encoding, input: seq<u8>, p: nat): Result<nat> {
    var s := SymAt(lengths, input, p);
    if p + LUT_BITS > 8 * |input| then Err(UnexpectedEof)
    else if s >= 0 && lengths[s] <= LUT_BITS then Ok(EncodeEntry(s, lengths[s], encoding))
    else if p + 15 > 8 * |input| then Err(UnexpectedEof)
    else if s >= 0 then Ok(EncodeEntry(s, lengths[s], encoding))
    else Err(Invalid)
  }

  lemma Pow2Ten()
    ensures Pow2(10) == 1024
  {
    assert Pow2(2) == 4 && Pow2(4) == 16 && Pow2(6) == 64 && Pow2(8) == 256;
  }

  lemma LongCodeMatches(lengths: seq<nat>, encoding: Encoding, sym: nat, w: nat)
    requires ShortLengths(lengths) && Fits(lengths)
    requires sym < |lengths| && lengths[sym] > LUT_BITS
    ensures var c := LongCodeOf(lengths, encoding, sym);
      Low(w, c.length) == c.reversed ==> Sym(lengths, w) == sym
  {
    CodeBound(lengths, sym);
    MsbVersusLow(w, Code(lengths, sym), lengths[sym]);
    if Matches(lengths, sym, w) { SymIs(lengths, sym, w); }
  }

  /** The next ten bits decide every code of at most ten bits. */
  lemma ShortAgrees(lengths: seq<nat>, v: nat, w: nat)
    requires v == Low(w, LUT_BITS)
    ensures var s, t := Sym(lengths, w), Sym(lengths, v);
      (s >= 0 && lengths[s] <= LUT_BITS) || (t >= 0 && lengths[t] <= LUT_BITS) ==> s == t
  {
    forall i: nat | i < |lengths| && lengths[i] <= LUT_BITS
      ensures Matches(lengths, i, w) == Matches(lengths, i, v)
    {
      LowLow(w, LUT_BITS, lengths[i]);
      MsbLocal(w, v, lengths[i]);
    }
    var s, t := Sym(lengths, w), Sym(lengths, v);
    if s >= 0 && lengths[s] <= LUT_BITS { SymIs(lengths, s, v); }
    if t >= 0 && lengths[t] <= LUT_BITS { SymIs(lengths, t, w); }
  }

  class HuffmanDecoder {
    const lut: array<nat>
    var longCodes: seq<LongCode>
    ghost var lengths: seq<nat>
    ghost var encoding: Encoding
    ghost var longSyms: seq<nat>

    /** The tables decode the canonical code of `lengths`. */
    ghost predicate Valid()
      reads this, lut
    {
      && lut.Length == LUT_SIZE
      && |lengths| <= MAX_SYMBOLS && ShortLengths(lengths) && Fits(lengths)
      && (forall idx: nat | idx < LUT_SIZE :: lut[idx] == ShortEntry(lengths, encoding, idx))
      && LongListed(lengths, encoding, longCodes, longSyms, 16, 0)
    }

    constructor ()
      ensures lut.Length == LUT_SIZE && fresh(lut)
    {
      lut := new nat[LUT_SIZE](_ => 0);
      longCodes := [];
    }

    /** The tables hold exactly the symbols before (l, i). */
    ghost predicate Entered(lengths: seq<nat>, encoding: Encoding, l: nat, i: nat)
      reads this, lut
    {
      && lut.Length == LUT_SIZE
      && (forall idx: nat | idx < LUT_SIZE :: lut[idx] == Slot(lengths, encoding, idx, l, i))
      && LongListed(lengths, encoding, longCodes, longSyms, l, i)
    }

    /** Enter one symbol: stride through the direct table, or append to the long codes. */
    method Enter(lengths: seq<nat>, encoding: Encoding, sym: nat, rev: nat, ghost i: nat)
      requires |lengths| <= MAX_SYMBOLS && ShortLengths(lengths) && Fits(lengths)
      requires sym < |lengths| && 0 < lengths[sym]
      requires i == CountTo(lengths, lengths[sym], sym)
      requires rev == Reverse(Code(lengths, sym), lengths[sym])
      requires Entered(lengths, encoding, lengths[sym], i)
      modifies lut, this`longCodes, this`longSyms
      ensures Entered(lengths, encoding, lengths[sym], i + 1)
    {
      var l := lengths[sym];
      var entry := EncodeEntry(sym, l, encoding);
      if l <= LUT_BITS {
        ReverseBound(Code(lengths, sym), l);
        forall j: nat | j < LUT_SIZE
          ensures Low(j, l) == rev ==> Slot(lengths, encoding, j, l, i) == 0
          ensures Slot(lengths, encoding, j, l, i + 1) ==
            if Low(j, l) == rev then entry else Slot(lengths, encoding, j, l, i)
        {
          SlotStep(lengths, encoding, sym, j, i);
        }
        FillSlots(rev, entry, Pow2(l), l);
        LongListedSkip(lengths, encoding, longCodes, longSyms, sym, i);
      } else {
        forall j: nat | j < LUT_SIZE
          ensures Slot(lengths, encoding, j, l, i + 1) == Slot(lengths, encoding, j, l, i)
        {
        }
        LongListedPush(lengths, encoding, longCodes, longSyms, sym, i);
        longCodes := longCodes + [LongCode(rev, l, entry)];
        longSyms := longSyms + [sym];
      }
    }

    /** Enter all symbols of length l; `rev` follows the code in hand. */
    method EnterSymbols(lengths: seq<nat>, encoding: Encoding, sorted: array<nat>, l: nat, start: nat,
                        count: nat, rev0: nat)
        returns (rev: nat)
      requires |lengths| <= MAX_SYMBOLS && ShortLengths(lengths) && Fits(lengths)
      requires l > 0 && count == Count(lengths, l) && start == Offset(lengths, l)
      requires sorted != lut && SortedSymbols(lengths, sorted[..], |lengths|)
      requires rev0 == Reverse(First(lengths, l), l)
      requires Entered(lengths, encoding, l, 0)
      modifies lut, this`longCodes, this`longSyms
      ensures rev == Reverse(First(lengths, l) + (if count > 0 then count - 1 else 0), l)
      ensures Entered(lengths, encoding, l, count)
    {
      hide *;
      rev := rev0;
      var highBit := Pow2(l - 1);
      var i := 0;
      ghost var c := First(lengths, l);
      while i < count
        invariant 0 <= i <= count
        invariant rev == Reverse(c, l)
        invariant c == First(lengths, l) + (if i == count && i > 0 then i - 1 else i)
        invariant Entered(lengths, encoding, l, i)
      {
        var sym := SymbolAt(lengths, sorted, l, start, i);
        Enter(lengths, encoding, sym, rev, i);
        if i + 1 < count {
          rev := NextReversed(rev, highBit, c, l);
          c := c + 1;
        }
        i := i + 1;
      }
    }

    /** ... and step to the first code of the next length. */
    method EnterLength(lengths: seq<nat>, encoding: Encoding, sorted: array<nat>, l: nat, start: nat,
                       count: nat, rev0: nat)
        returns (rev: nat)
      requires |lengths| <= MAX_SYMBOLS && ShortLengths(lengths) && Fits(lengths)
      requires l > 0 && count == Count(lengths, l) && start == Offset(lengths, l)
      requires sorted != lut && SortedSymbols(lengths, sorted[..], |lengths|)
      requires rev0 == Reverse(First(lengths, l), l)
      requires Entered(lengths, encoding, l, 0)
      modifies lut, this`longCodes, this`longSyms
      ensures rev == Reverse(First(lengths, l + 1), l + 1)
      ensures Entered(lengths, encoding, l + 1, 0)
    {
      hide *;
      rev := EnterSymbols(lengths, encoding, sorted, l, start, count, rev0);
      if count > 0 {
        rev := NextReversed(rev, Pow2(l - 1), First(lengths, l) + count - 1, l);
      }
      LengthenReversed(lengths, l);
      EnteredAll(lengths, encoding, l);
    }

    lemma EnteredAll(lengths: seq<nat>, encoding: Encoding, l: nat)
      requires l > 0 && Entered(lengths, encoding, l, Count(lengths, l))
      ensures Entered(lengths, encoding, l + 1, 0)
    {
      forall s: nat | s < |lengths|
        ensures Before(lengths, s, l + 1, 0) == Before(lengths, s, l, Count(lengths, l))
      {
        if lengths[s] == l { RankBelow(lengths, s); }
      }
    }

    /** `build_into`: it rejects a length above 15 and an over-subscribed code (and, when strict, an
        incomplete one of at least two symbols); every other vector gets tables that decode its
        canonical code. */
    method Build(lengths: seq<nat>, strict: bool, encoding: Encoding) returns (r: Result<()>)
      requires lut.Length == LUT_SIZE && |lengths| <= MAX_SYMBOLS
      modifies this, lut
      ensures r == if Accepts(lengths, strict) then Ok(()) else Err(Invalid)
      ensures r.Ok? ==> Valid() && this.lengths == lengths && this.encoding == encoding
    {
      var ok, blCount := CountLengths(lengths);
      if !ok {
        return Err(Invalid);
      }
      var total, symbols := SumLengths(lengths, blCount);
      KraftDecides(lengths, 15);
      if symbols <= 1 { KraftSmall(lengths, 15, 15); }
      if symbols >= 2 && total > Pow2(15) {
        return Err(Invalid);
      }
      if strict && symbols >= 2 && total != Pow2(15) {
        return Err(Invalid);
      }
      var sorted := SortSymbols(lengths, blCount);
      Fill(lengths, encoding, sorted, blCount);
      this.lengths := lengths;
      this.encoding := encoding;
      forall idx: nat | idx < LUT_SIZE ensures lut[idx] == ShortEntry(lengths, encoding, idx) {
        assert lut[idx] == Slot(lengths, encoding, idx, 16, 0);
      }
      r := Ok(());
    }

    /** Empty tables: no symbol comes before the first code length. */
    method Clear(ghost lengths: seq<nat>, ghost encoding: Encoding)
      requires lut.Length == LUT_SIZE
      modifies lut, this`longCodes, this`longSyms
      ensures Entered(lengths, encoding, 1, 0)
    {
      var k := 0;
      while k < LUT_SIZE
        invariant 0 <= k <= LUT_SIZE
        invariant forall j: nat | j < k :: lut[j] == 0
      {
        lut[k] := 0;
        k := k + 1;
      }
      longCodes, longSyms := [], [];
    }

    /** Clear the tables and enter every symbol in canonical order. */
    method Fill(lengths: seq<nat>, encoding: Encoding, sorted: array<nat>, blCount: array<nat>)
      requires lut.Length == LUT_SIZE
      requires |lengths| <= MAX_SYMBOLS && ShortLengths(lengths) && Fits(lengths)
      requires sorted != lut && blCount != lut && SortedSymbols(lengths, sorted[..], |lengths|)
      requires blCount.Length == 16
      requires forall l: nat | l <= 15 :: blCount[l] == Count(lengths, l)
      modifies lut, this`longCodes, this`longSyms
      ensures Entered(lengths, encoding, 16, 0)
    {
      hide Slot, Fits, ShortLengths, LongListed;
      Clear(lengths, encoding);
      var rev, start := 0, 0;
      var l := 1;
      assert Offset(lengths, 1) == Offset(lengths, 0) + Count(lengths, 0);
      assert First(lengths, 1) == 2 * (First(lengths, 0) + Count(lengths, 0));
      while l <= 15
        invariant 1 <= l <= 16
        invariant start == Offset(lengths, l)
        invariant rev == Reverse(First(lengths, l), l)
        invariant Entered(lengths, encoding, l, 0)
        invariant forall m: nat | m <= 15 :: blCount[m] == Count(lengths, m)
        invariant sorted[..] == old(sorted[..])
      {
        rev := EnterLength(lengths, encoding, sorted, l, start, blCount[l], rev);
        start := start + blCount[l];
        l := l + 1;
      }
    }

    /** Scan the long codes. Used after the direct table found nothing. */
    method LookupLong(br: BitReader) returns (r: Result<nat>)
      requires Valid() && br.Valid()
      modifies br
      ensures br.Valid() && br.bits <= (if old(br.bits) >= 15 then old(br.bits) else 64)
      ensures var p := old(br.TellBit());
        var s := SymAt(lengths, br.input, p);
        if p + 15 > 8 * |br.input| then
          r == Err(UnexpectedEof) && br.TellBit() == p
        else if s >= 0 && lengths[s] > LUT_BITS then
          && r == Ok(EncodeEntry(s, lengths[s], encoding))
          && br.TellBit() == p + lengths[s]
          && br.bits <= 63 && (old(br.bits) >= 15 ==> br.bits == old(br.bits) - lengths[s])
        else
          r == Err(Invalid) && br.TellBit() == p
    {
      hide Sym, EncodeEntry, Fits, ShortEntry, Agrees, Pow2, Val;
      var w := br.Peek(15);
      if w.Err? {
        return Err(UnexpectedEof);
      }
      var k := FindLong(w.value);
      if k < 0 {
        return Err(Invalid);
      }
      br.Consume(longCodes[k].length);
      r := Ok(longCodes[k].entry);
    }

    /** The first long code that starts the window, or -1. */
    method FindLong(w: nat) returns (k: int)
      requires Valid()
      ensures var s := Sym(lengths, w);
        if s >= 0 && lengths[s] > LUT_BITS
        then 0 <= k < |longCodes| && longCodes[k] == LongCodeOf(lengths, encoding, s)
        else k == -1
    {
      hide Sym, Matches, Code, EncodeEntry, Reverse, Fits;
      k := 0;
      while k < |longCodes|
        invariant 0 <= k <= |longCodes|
        invariant forall j | 0 <= j < k :: Low(w, longCodes[j].length) != longCodes[j].reversed
      {
        var c := longCodes[k];
        LongCodeMatches(lengths, encoding, longSyms[k], w);
        if Low(w, c.length) == c.reversed {
          return;
        }
        k := k + 1;
      }
      LongMissed(w);
      k := -1;
    }

    lemma LongMissed(w: nat)
      requires Valid()
      requires forall j | 0 <= j < |longCodes| :: Low(w, longCodes[j].length) != longCodes[j].reversed
      ensures Sym(lengths, w) < 0 || lengths[Sym(lengths, w)] <= LUT_BITS
    {
      var s := Sym(lengths, w);
      if s >= 0 && lengths[s] > LUT_BITS {
        assert Before(lengths, s, 16, 0);
        var j :| 0 <= j < |longSyms| && longSyms[j] == s;
        CodeBound(lengths, s);
        MsbVersusLow(w, Code(lengths, s), lengths[s]);
        assert false;
      }
    }

    /** One symbol from the buffered bits: the direct table, then the long codes. With 15 bits
        buffered the result is the canonical code's, and no more bits are asked for. */
    method LookupBuffered(br: BitReader) returns (r: Result<nat>)
      requires Valid() && br.Valid() && 15 <= br.bits
      modifies br
      ensures br.Valid() && br.bits <= old(br.bits)
      ensures var p := old(br.TellBit());
        var s := SymAt(lengths, br.input, p);
        if s >= 0 then
          && r == Ok(EncodeEntry(s, lengths[s], encoding))
          && br.TellBit() == p + lengths[s] && br.bits == old(br.bits) - lengths[s]
        else
          r == Err(Invalid) && br.TellBit() == p
    {
      hide Sym, EncodeEntry, Fits, ShortEntry, Agrees, Pow2, Val, LongListed;
      var idx := br.PeekBuffered(LUT_BITS);
      LutDecides(br.input, br.TellBit());
      var e := lut[idx];
      var len := LenOf(e);
      if len == 0 {
        r := LookupLong(br);
      } else {
        br.Consume(len);
        r := Ok(e);
      }
    }

    /** The direct table alone: the entry of a code of at most 10 bits, or 0; nothing is consumed. */
    method PeekShort(br: BitReader) returns (e: nat)
      requires Valid() && br.Valid() && LUT_BITS <= br.bits
      ensures var s := SymAt(lengths, br.input, br.TellBit());
        if s >= 0 && lengths[s] <= LUT_BITS
        then e == EncodeEntry(s, lengths[s], encoding) && LenOf(e) == lengths[s] > 0
        else e == 0
    {
      hide Sym, EncodeEntry, Fits, ShortEntry, Agrees, Pow2, Val, LongListed;
      var idx := br.PeekBuffered(LUT_BITS);
      LutDecides(br.input, br.TellBit());
      e := lut[idx];
    }

    /** One symbol with refills as needed (`lookup`), as the header parser uses it: ten bits must be
        there even for a shorter code. */
    method Lookup(br: BitReader) returns (r: Result<nat>)
      requires Valid() && br.Valid()
      modifies br
      ensures br.Valid() && (r.Ok? ==> br.bits <= 63)
      ensures var p := old(br.TellBit());
        r == LookupAt(lengths, encoding, br.input, p)
        && br.TellBit() == p + (if r.Ok? then lengths[SymAt(lengths, br.input, p)] else 0)
    {
      hide Sym, EncodeEntry, Fits, ShortEntry, Agrees, Pow2, Val, LongListed;
      var idx := br.Peek(LUT_BITS);
      if idx.Err? {
        return Err(UnexpectedEof);
      }
      LutDecides(br.input, br.TellBit());
      var e := lut[idx.value];
      var len := LenOf(e);
      if len == 0 {
        r := LookupLong(br);
      } else {
        br.Consume(len);
        r := Ok(e);
      }
    }

    /** What the slot selected by the next ten bits says about the next symbol. */
    lemma LutDecides(input: seq<u8>, p: nat)
      requires Valid()
      ensures Val(input, p, LUT_BITS) < LUT_SIZE
      ensures var s := SymAt(lengths, input, p);
        var e := lut[Val(input, p, LUT_BITS)];
        if s >= 0 && lengths[s] <= LUT_BITS
        then e == EncodeEntry(s, lengths[s], encoding) && LenOf(e) == lengths[s] > 0
        else e == 0
    {
      var v, w := Val(input, p, LUT_BITS), Val(input, p, 15);
      ValBound(input, p, LUT_BITS);
      assert Pow2(10) == LUT_SIZE by { assert Pow2(5) == 32; Pow2Ten(); }
      LowVal(input, p, 15, LUT_BITS);
      ShortAgrees(lengths, v, w);
      var s := Sym(lengths, w);
      if s >= 0 && lengths[s] <= LUT_BITS { EntryLen(s, lengths[s], encoding); }
    }

    /** Fill every slot whose low `l` bits are `rev`; none of them may be taken. */
    method FillSlots(rev: nat, entry: nat, stride: nat, ghost l: nat)
      requires lut.Length == LUT_SIZE
      requires stride == Pow2(l) && rev < stride
      requires forall j: nat | j < LUT_SIZE && Low(j, l) == rev :: lut[j] == 0
      modifies lut
      ensures forall j: nat | j < LUT_SIZE ::
        lut[j] == if Low(j, l) == rev then entry else old(lut[j])
    {
      var idx := rev;
      forall j: nat | j <= rev ensures Low(j, l) == j { LowSmall(j, l); }
      while idx < LUT_SIZE
        invariant Low(idx, l) == rev && idx >= rev
        invariant forall j: nat | j < idx && j < LUT_SIZE :: lut[j] == (if Low(j, l) == rev then entry else old(lut[j]))
        invariant forall j: nat | idx <= j < LUT_SIZE :: lut[j] == old(lut[j])
        decreases LUT_SIZE - idx
      {
        assert lut[idx] == 0;
        lut[idx] := entry;
        NoneBetween(idx, l);
        LowStride(idx, l);
        idx := idx + stride;
      }
    }
  }

  /** The length vectors a table is built for. */
  ghost predicate Accepts(lengths: seq<nat>, strict: bool) {
    && ShortLengths(lengths)
    && Fits(lengths)
    && (strict && Offset(lengths, 16) >= 2 ==> Kraft(lengths, 15, 15) == Pow2(15))
  }

  lemma LongListedSkip(lengths: seq<nat>, encoding: Encoding, longs: seq<LongCode>, syms: seq<nat>,
                       sym: nat, i: nat)
    requires sym < |lengths| && lengths[sym] <= LUT_BITS
    requires LongListed(lengths, encoding, longs, syms, lengths[sym], i)
    ensures LongListed(lengths, encoding, longs, syms, lengths[sym], i + 1)
  {
  }

  lemma LongListedPush(lengths: seq<nat>, encoding: Encoding, longs: seq<LongCode>, syms: seq<nat>,
                       sym: nat, i: nat)
    requires sym < |lengths| && lengths[sym] > LUT_BITS && i == CountTo(lengths, lengths[sym], sym)
    requires LongListed(lengths, encoding, longs, syms, lengths[sym], i)
    ensures LongListed(lengths, encoding, longs + [LongCodeOf(lengths, encoding, sym)], syms + [sym],
                       lengths[sym], i + 1)
  {
    forall s: nat | s < |lengths| && lengths[s] > LUT_BITS && Before(lengths, s, lengths[sym], i + 1)
      ensures s in syms + [sym]
    {
      if !Before(lengths, s, lengths[sym], i) { RankUnique(lengths, s, sym); }
    }
  }

  lemma NoneBetween(idx: nat, l: nat)
    ensures forall j: nat | idx < j < idx + Pow2(l) :: Low(j, l) != Low(idx, l)
  {
    forall j: nat | idx < j < idx + Pow2(l) ensures Low(j, l) != Low(idx, l) {
      if Low(j, l) == Low(idx, l) { LowGap(idx, j, l); }
    }
  }

  /** Entering one symbol changes exactly the slots its reversed code selects, and those were free. */
  lemma SlotStep(lengths: seq<nat>, encoding: Encoding, sym: nat, j: nat, i: nat)
    requires ShortLengths(lengths) && Fits(lengths)
    requires sym < |lengths| && 0 < lengths[sym] <= LUT_BITS
    requires i == CountTo(lengths, lengths[sym], sym)
    ensures var l := lengths[sym];
      if Low(j, l) == Reverse(Code(lengths, sym), l)
      then Slot(lengths, encoding, j, l, i) == 0
           && Slot(lengths, encoding, j, l, i + 1) == EncodeEntry(sym, l, encoding)
      else Slot(lengths, encoding, j, l, i + 1) == Slot(lengths, encoding, j, l, i)
  {
    var l := lengths[sym];
    CodeBound(lengths, sym);
    MsbVersusLow(j, Code(lengths, sym), l);
    if Low(j, l) == Reverse(Code(lengths, sym), l) {
      SymIs(lengths, sym, j);
    } else {
      var s := Sym(lengths, j);
      if s >= 0 && lengths[s] == l && CountTo(lengths, l, s) == i {
        RankUnique(lengths, s, sym);
      }
    }
  }

  lemma RankUnique(lengths: seq<nat>, a: nat, b: nat)
    requires a < |lengths| && b < |lengths| && lengths[a] == lengths[b]
    requires CountTo(lengths, lengths[a], a) == CountTo(lengths, lengths[a], b)
    ensures a == b
  {
    if a < b { RankInjective(lengths, a, b); }
    if b < a { RankInjective(lengths, b, a); }
  }
}
