/** The second decoder (deflate/safe_inflate.rs) as a whole. It reads to the very last bit of the input, so
    it decodes exactly the well-formed streams; the table-driven decoders agree with it except within
    48 bits of the end. */
module SafeInflate {
  import opened Words
  import opened BitStream
  import opened Canonical
  import opened Tables
  import opened Lz77
  import opened Deflate
  import opened Kernels
  import opened Blocks
  import opened Stream
  import opened CopyKernels
  import Huffman
  import opened SafeHuffman

  /** The bits at hand reach at least n further, or to the end of the input. */
  ghost predicate Stocked(br: BitReader, n: nat)
    reads br
  {
    br.Valid() && (br.bits >= n || br.TellBit() + br.bits == 8 * |br.input|)
  }

  /** `refill_best_effort`, and the refill of the symbol loop: as much as fits, and no error at the end. */
  method RefillBestEffort(br: BitReader, enough: nat)
    requires br.Valid() && enough <= 56
    modifies br
    ensures Stocked(br, enough) && br.TellBit() == old(br.TellBit())
  {
    hide Agrees, StreamBit, LoadLE, Shl, Shr, Low, Or, Bit, Pow2, Val, Xor;
    if br.bits >= enough {
      return;
    }
    if br.bytePos + 8 <= |br.input| {
      br.LoadWord((64 - br.bits) / 8);
      return;
    }
    while br.bits + 8 <= 64 && br.bytePos < |br.input|
      invariant br.Valid() && br.TellBit() == old(br.TellBit())
      decreases |br.input| - br.bytePos
    {
      br.LoadByte();
    }
  }

  lemma SoundSlot(lengths: seq<nat>, input: seq<u8>, p: nat, e: nat)
    requires ShortLengths(lengths) && SlotSound(lengths, Val(input, p, LUT_BITS), e) && e % 0x100 != 0
    ensures var s := Huffman.SymAt(lengths, input, p);
      s >= 0 && lengths[s] <= LUT_BITS && LutLen(e) == lengths[s] && LutSym(e) == s
  {
    hide Val;
    var s := Sym(lengths, Val(input, p, LUT_BITS));
    LowVal(input, p, LUT_BITS, lengths[s]);
    LowVal(input, p, 15, lengths[s]);
    SameStart(lengths, s, Val(input, p, LUT_BITS), Val(input, p, 15));
  }

  /** A symbol from the bits at hand: by the direct table when it has the code, otherwise by the walk. */
  method DecodeBuffered(br: BitReader, t: Table) returns (r: Result<nat>)
    requires t.Valid() && br.Valid()
    modifies br
    ensures br.Valid()
    ensures var p := old(br.TellBit());
      var s := Huffman.SymAt(t.lengths, br.input, p);
      if s >= 0 && t.lengths[s] <= old(br.bits) then
        r == Ok(s) && br.TellBit() == p + t.lengths[s] && br.bits == old(br.bits) - t.lengths[s]
      else r.Err?
  {
    hide Agrees, Val, Sym, Fits, ShortLengths, SlotSound, Huffman.SortedSymbols, Count;
    if br.bits >= LUT_BITS {
      var idx := br.PeekBuffered(LUT_BITS);
      NineBits(br.input, br.TellBit());
      var e := t.lut[idx];
      if LutLen(e) != 0 {
        SoundSlot(t.lengths, br.input, br.TellBit(), e);
        br.Consume(LutLen(e));
        return Ok(LutSym(e));
      }
    }
    r := t.DecodeShort(br);
  }

  lemma NineBits(input: seq<u8>, p: nat)
    ensures Val(input, p, LUT_BITS) < LUT_SIZE
  {
    ValBound(input, p, LUT_BITS);
    assert Pow2(9) == 512;
  }

  /** `decode`: the same with a refill first when the table cannot answer. */
  method Decode(br: BitReader, t: Table) returns (r: Result<nat>)
    requires t.Valid() && br.Valid()
    modifies br
    ensures br.Valid()
    ensures var p := old(br.TellBit());
      var s := Huffman.SymAt(t.lengths, br.input, p);
      if s >= 0 && p + t.lengths[s] <= 8 * |br.input| then r == Ok(s) && br.TellBit() == p + t.lengths[s]
      else r.Err?
  {
    hide Agrees, Val, Sym, Fits, ShortLengths, SlotSound, Huffman.SortedSymbols, Count;
    TableShort(t);
    if br.bits >= LUT_BITS {
      var idx := br.PeekBuffered(LUT_BITS);
      NineBits(br.input, br.TellBit());
      var e := t.lut[idx];
      if LutLen(e) != 0 {
        SoundSlot(t.lengths, br.input, br.TellBit(), e);
        br.Consume(LutLen(e));
        return Ok(LutSym(e));
      }
      if br.bits < 15 {
        RefillBestEffort(br, 56);
      }
      r := t.DecodeShort(br);
      return;
    }
    RefillBestEffort(br, 56);
    r := t.DecodeShort(br);
  }

  lemma TableShort(t: Table)
    requires t.Valid()
    ensures forall i | 0 <= i < |t.lengths| :: t.lengths[i] <= 15
  {
  }

  // Symbols

  /** The distance symbol, its extra bits, and the copy. */
  method SafeMatch(br: BitReader, dc: Table, length: nat, out0: seq<u8>)
      returns (done: bool, r: Result<()>, out: seq<u8>)
    requires dc.Valid() && Stocked(br, 28)
    modifies br
    ensures br.Valid()
    ensures match DistanceAt(dc.lengths, br.input, old(br.TellBit()))
      case None => done && r.Err?
      case Some((distance, next)) =>
        if next > 8 * |br.input| then done && r.Err?
        else match ApplyOne(out0, Copy(length, distance))
          case None => done && r.Err?
          case Some(o) => !done && out == o && br.TellBit() == next
  {
    hide Agrees, Val, Sym, Fits, ShortLengths, SlotSound, Huffman.SortedSymbols, Count, DistanceBase, DistanceExtra;
    TableShort(dc);
    ghost var d := Huffman.SymAt(dc.lengths, br.input, br.TellBit());
    out := out0;
    var sym := DecodeBuffered(br, dc);
    if sym.Err? {
      return true, Err(Invalid), out;
    }
    if sym.value >= 30 {
      return true, Err(Invalid), out;
    }
    TableFacts(sym.value);
    var extra := DistanceExtra(sym.value);
    if br.bits < extra {
      return true, Err(UnexpectedEof), out;
    }
    var v := br.PeekBuffered(extra);
    br.Consume(extra);
    var distance := DistanceBase(sym.value) + v;
    if distance == 0 || distance > |out| {
      return true, Err(Invalid), out;
    }
    out := CopyBackSafe(out, distance, length);
    done, r := false, Ok(());
  }

  /** One turn of the symbol loop, after its refill. */
  method SafeSymbol(br: BitReader, lc: Table, dc: Table, out0: seq<u8>)
      returns (done: bool, r: Result<()>, out: seq<u8>)
    requires lc.Valid() && dc.Valid() && Stocked(br, NEEDED)
    modifies br
    ensures br.Valid()
    ensures match StepAt(lc.lengths, dc.lengths, br.input, old(br.TellBit()))
      case BadSymbol => done && r.Err?
      case EndOfBlock(q) => done && (r.Ok? <==> q <= 8 * |br.input|) && (r.Ok? ==> out == out0 && br.TellBit() == q)
      case Emit(t, q) =>
        if q > 8 * |br.input| then done && r.Err?
        else match ApplyOne(out0, t)
          case None => done && r.Err?
          case Some(o) => !done && out == o && br.TellBit() == q
  {
    hide Agrees, Val, Sym, Fits, ShortLengths, SlotSound, Huffman.SortedSymbols, Count, DistanceAt, ApplyOne,
      LengthBase, LengthExtra, DistanceBase, DistanceExtra;
    TableShort(lc);
    ghost var p := br.TellBit();
    ghost var s := Huffman.SymAt(lc.lengths, br.input, p);
    out := out0;
    var sym := DecodeBuffered(br, lc);
    if sym.Err? {
      StepPast(lc.lengths, dc.lengths, br.input, p);
      return true, Err(sym.error), out;
    }
    if sym.value < 256 {
      LiteralApplies(out0, sym.value);
      return false, Ok(()), out + [sym.value];
    }
    if sym.value == 256 {
      return true, Ok(()), out;
    }
    if sym.value - 257 >= 29 {
      return true, Err(Invalid), out;
    }
    TableFacts(sym.value);
    var extra := LengthExtra(sym.value);
    if br.bits < extra {
      StepPast(lc.lengths, dc.lengths, br.input, p);
      return true, Err(UnexpectedEof), out;
    }
    var v := br.PeekBuffered(extra);
    br.Consume(extra);
    done, r, out := SafeMatch(br, dc, LengthBase(sym.value) + v, out);
  }

  /** A symbol reaches at least past its code and a match past its length's extra bits. */
  lemma StepPast(lit: seq<nat>, dist: seq<nat>, input: seq<u8>, p: nat)
    ensures var st := StepAt(lit, dist, input, p); var s := Huffman.SymAt(lit, input, p);
      !st.BadSymbol? ==> s >= 0 && st.next >= p + lit[s] && (s > 256 ==> st.next >= p + lit[s] + LengthExtra(s))
  {
    hide Val, LengthBase, LengthExtra, DistanceBase, DistanceExtra;
  }

  /** The rest of a block seen from position p with output `out` is the rest of the whole run. */
  ghost predicate Ahead(run: Run, out0: seq<u8>, lit: seq<nat>, dist: seq<nat>, input: seq<u8>, p: nat,
                        out: seq<u8>)
  {
    var rest := RunFrom(lit, dist, input, p);
    rest.end == run.end && Apply(out, rest.tokens) == Apply(out0, run.tokens)
  }

  lemma AheadStart(run: Run, out0: seq<u8>, lit: seq<nat>, dist: seq<nat>, input: seq<u8>, p: nat)
    requires run == RunFrom(lit, dist, input, p)
    ensures Ahead(run, out0, lit, dist, input, p, out0)
  {
  }

  lemma AheadEmit(run: Run, out0: seq<u8>, lit: seq<nat>, dist: seq<nat>, input: seq<u8>, p: nat,
                  out: seq<u8>)
    requires Ahead(run, out0, lit, dist, input, p, out) && p < 8 * |input|
    ensures var s := StepAt(lit, dist, input, p);
      s.Emit? && s.next <= 8 * |input| ==>
        match ApplyOne(out, s.token)
        case Some(out') => Ahead(run, out0, lit, dist, input, s.next, out')
        case None => Apply(out0, run.tokens).None?
  {
    hide StepAt, ApplyOne, LengthBase, LengthExtra, DistanceBase, DistanceExtra;
    var s := StepAt(lit, dist, input, p);
    if s.Emit? && s.next <= 8 * |input| {
      var rest := RunFrom(lit, dist, input, s.next);
      assert ([s.token] + rest.tokens)[1..] == rest.tokens;
    }
  }

  lemma AheadStops(run: Run, out0: seq<u8>, lit: seq<nat>, dist: seq<nat>, input: seq<u8>, p: nat,
                   out: seq<u8>)
    requires Ahead(run, out0, lit, dist, input, p, out) && p < 8 * |input|
    ensures var s := StepAt(lit, dist, input, p);
      && (s.BadSymbol? ==> run.end.Malformed?)
      && (s.EndOfBlock? && s.next <= 8 * |input| ==>
            run.end == Done(s.next) && Apply(out0, run.tokens) == Some(out))
  {
    hide StepAt, LengthBase, LengthExtra, DistanceBase, DistanceExtra;
  }

  /** What the symbol at p leads to, when the decode reaches to the last bit. */
  lemma AheadExactly(run: Run, out0: seq<u8>, lit: seq<nat>, dist: seq<nat>, input: seq<u8>, p: nat, out: seq<u8>)
    requires Ahead(run, out0, lit, dist, input, p, out)
    ensures var s := StepAt(lit, dist, input, p);
      && (s.BadSymbol? || s.next > 8 * |input| ==> !run.end.Done?)
      && (s.EndOfBlock? && s.next <= 8 * |input| ==>
            run.end == Done(s.next) && Apply(out0, run.tokens) == Some(out))
      && (s.Emit? && s.next <= 8 * |input| ==>
            match ApplyOne(out, s.token)
            case None => Apply(out0, run.tokens).None?
            case Some(o) => Ahead(run, out0, lit, dist, input, s.next, o))
  {
    hide StepAt, ApplyOne;
    StepAdvances(lit, dist, input, p);
    if p < 8 * |input| {
      AheadEmit(run, out0, lit, dist, input, p, out);
      AheadStops(run, out0, lit, dist, input, p, out);
    }
  }

  /** `codes`: it succeeds exactly on blocks that are well formed and reach back no further than the
      output. */
  method Codes(br: BitReader, lc: Table, dc: Table, out0: seq<u8>) returns (r: Result<()>, out: seq<u8>)
    requires lc.Valid() && dc.Valid() && br.Valid()
    modifies br
    ensures br.Valid()
    ensures var run := RunFrom(lc.lengths, dc.lengths, br.input, old(br.TellBit()));
      if r.Ok? then run.end == Done(br.TellBit()) && Apply(out0, run.tokens) == Some(out)
      else !run.end.Done? || Apply(out0, run.tokens).None?
  {
    hide Agrees, StepAt, ApplyOne, Apply, RunFrom, Ahead, Fits, ShortLengths, SlotSound, Huffman.SortedSymbols, Count;
    ghost var run := RunFrom(lc.lengths, dc.lengths, br.input, br.TellBit());
    AheadStart(run, out0, lc.lengths, dc.lengths, br.input, br.TellBit());
    out := out0;
    while true
      invariant br.Valid() && lc.Valid() && dc.Valid()
      invariant Ahead(run, out0, lc.lengths, dc.lengths, br.input, br.TellBit(), out)
      decreases 8 * |br.input| - br.TellBit()
    {
      AheadExactly(run, out0, lc.lengths, dc.lengths, br.input, br.TellBit(), out);
      StepAdvances(lc.lengths, dc.lengths, br.input, br.TellBit());
      RefillBestEffort(br, NEEDED);
      var done;
      done, r, out := SafeSymbol(br, lc, dc, out);
      if done {
        return;
      }
    }
  }

  // Headers, to the last bit

  /** The symbol at p when its code lies inside the input. */
  function SymInside(lengths: seq<nat>, input: seq<u8>, p: nat): Option<nat> {
    var s := Huffman.SymAt(lengths, input, p);
    if s >= 0 && p + lengths[s] <= 8 * |input| then Some(s) else None
  }

  /** Run-length coded code lengths, continued from p up to `total` of them. */
  function SafeLengths(cl: seq<nat>, input: seq<u8>, p: nat, acc: seq<nat>, total: nat)
      : (r: Option<(seq<nat>, nat)>)
    requires |acc| <= total
    ensures r.Some? ==> |r.value.0| == total && r.value.1 >= p
    decreases total - |acc|
  {
    if |acc| == total then Some((acc, p))
    else match SymInside(cl, input, p)
      case None => None
      case Some(sym) =>
        var q := p + cl[sym];
        if sym <= 15 then SafeLengths(cl, input, q, acc + [sym], total)
        else if sym > 18 || (sym == 16 && acc == []) then None
        else
          var extra := RepeatExtra(sym);
          if q + extra > 8 * |input| then None
          else
            var n := Val(input, q, extra) + RepeatBase(sym);
            if |acc| + n > total then None
            else
              var what := if sym == 16 then acc[|acc| - 1] else 0;
              SafeLengths(cl, input, q + extra, acc + Repeat(what, n), total)
  }

  /** The header at p, just after the block type. */
  ghost function SafeHeaderAt(input: seq<u8>, p: nat): Option<Header> {
    var hlit := Val(input, p, 5) + 257;
    var hdist := Val(input, p + 5, 5) + 1;
    ValBoundFour(input, p + 10);
    if p + 14 > 8 * |input| || hlit > 286 || hdist > 30 then None
    else CodesAt(input, p + 14, hlit, hdist, Val(input, p + 10, 4) + 4)
  }

  /** The code lengths from p, with the counts known. */
  ghost function CodesAt(input: seq<u8>, p: nat, hlit: nat, hdist: nat, hclen: nat): Option<Header>
    requires 257 <= hlit && hdist > 0 && hclen <= 19
  {
    if p + 3 * hclen > 8 * |input| then None
    else
      var cl := CodeLengthCode(input, p, hclen);
      if !Huffman.Accepts(cl, false) then None
      else match SafeLengths(cl, input, p + 3 * hclen, [], hlit + hdist)
        case None => None
        case Some((lengths, end)) =>
          if lengths[256] == 0 || !Huffman.Accepts(lengths[..hlit], false) || !Huffman.Accepts(lengths[hlit..], false)
          then None
          else Some(Header(lengths[..hlit], lengths[hlit..], end))
  }

  /** Where the last code-length symbol starts; p when there is none to come. */
  function LastLength(cl: seq<nat>, input: seq<u8>, p: nat, acc: seq<nat>, total: nat): (q: nat)
    requires |acc| <= total
    ensures q >= p
    decreases total - |acc|
  {
    var sym := SymInside(cl, input, p);
    if |acc| == total || sym.None? then p
    else
      var q := p + cl[sym.value];
      if sym.value <= 15 then
        if |acc| + 1 == total then p else LastLength(cl, input, q, acc + [sym.value], total)
      else if sym.value > 18 || (sym.value == 16 && acc == []) then p
      else
        var extra := RepeatExtra(sym.value);
        var n := Val(input, q, extra) + RepeatBase(sym.value);
        if q + extra > 8 * |input| || |acc| + n >= total then p
        else LastLength(cl, input, q + extra,
                        acc + Repeat(if sym.value == 16 then acc[|acc| - 1] else 0, n), total)
  }

  /** No code of the code-length code is longer than the seven bits its length is given in. */
  ghost predicate SevenBits(cl: seq<nat>) {
    |cl| == 19 && forall i | 0 <= i < 19 :: cl[i] <= 7
  }

  lemma {:induction false} CodeLengthsShort(input: seq<u8>, p: nat, n: nat)
    requires n <= 19
    ensures SevenBits(CodeLengthCode(input, p, n))
    decreases n
  {
    if n > 0 {
      CodeLengthsShort(input, p, n - 1);
      ValBound(input, p + 3 * (n - 1), 3);
      assert Pow2(3) == 8;
    }
  }

  /** The table decoder's parser succeeds exactly where this one does and ten bits are there from the start
      of the last code-length symbol on; then the lengths are the same. */
  lemma {:induction false} LengthsAgree(cl: seq<nat>, input: seq<u8>, p: nat, acc: seq<nat>, total: nat)
    requires |acc| <= total && SevenBits(cl)
    ensures var r, s := LengthsFrom(cl, input, p, acc, total), SafeLengths(cl, input, p, acc, total);
      && (r.Ok? <==> s.Some? && (|acc| == total || LastLength(cl, input, p, acc, total) + 10 <= 8 * |input|))
      && (r.Ok? ==> s == Some(r.value))
      && (s.Some? && |acc| < total ==> LastLength(cl, input, p, acc, total) < s.value.1)
    decreases total - |acc|
  {
    hide Huffman.SymAt, Val, Repeat, RepeatExtra, RepeatBase, Hi, EncodeEntry;
    if |acc| < total {
      LookupInside(cl, input, p);
      var s := SymInside(cl, input, p);
      if s.Some? {
        var q := p + cl[s.value];
        if s.value <= 15 {
          LengthsAgree(cl, input, q, acc + [s.value], total);
        } else if s.value <= 18 && !(s.value == 16 && acc == []) {
          var extra := RepeatExtra(s.value);
          var n := Val(input, q, extra) + RepeatBase(s.value);
          if q + extra <= 8 * |input| && |acc| + n <= total {
            LengthsAgree(cl, input, q + extra, acc + Repeat(if s.value == 16 then acc[|acc| - 1] else 0, n), total);
          }
        }
      }
    }
  }

  lemma LookupInside(cl: seq<nat>, input: seq<u8>, p: nat)
    requires SevenBits(cl)
    ensures var r, s := Huffman.LookupAt(cl, Simple, input, p), SymInside(cl, input, p);
      && (r.Ok? <==> s.Some? && p + 10 <= 8 * |input|)
      && (r.Ok? ==> Hi(r.value) == s.value && s.value == Huffman.SymAt(cl, input, p))
  {
    hide Huffman.SymAt, Hi, EncodeEntry;
    var s := Huffman.SymAt(cl, input, p);
    if s >= 0 { SimpleEntry(s, cl[s]); }
  }

  /** Where the last code-length symbol of the header at p starts. */
  ghost function LastLengthAt(input: seq<u8>, p: nat): nat {
    ValBoundFour(input, p + 10);
    var hclen := Val(input, p + 10, 4) + 4;
    LastLength(CodeLengthCode(input, p + 14, hclen), input, p + 14 + 3 * hclen, [],
               Val(input, p, 5) + 257 + Val(input, p + 5, 5) + 1)
  }

  /** The two header parsers agree, except that the table decoder's wants ten bits for every lookup. */
  lemma HeadersAgree(input: seq<u8>, p: nat)
    ensures var r, s := HeaderAt(input, p, false), SafeHeaderAt(input, p);
      && (r.Ok? <==> s.Some? && LastLengthAt(input, p) + 10 <= 8 * |input|)
      && (r.Ok? ==> s == Some(r.value))
      && (s.Some? ==> LastLengthAt(input, p) < s.value.end)
  {
    hide Val, CodeLengthCode, LengthsFrom, SafeLengths, LastLength, Fits, Kraft, Offset;
    ValBoundFour(input, p + 10);
    var hclen := Val(input, p + 10, 4) + 4;
    var cl := CodeLengthCode(input, p + 14, hclen);
    var total := Val(input, p, 5) + 257 + Val(input, p + 5, 5) + 1;
    CodeLengthsShort(input, p + 14, hclen);
    LengthsAgree(cl, input, p + 14 + 3 * hclen, [], total);
  }

  const MAX_LENGTHS: nat := 316

  /** The code-length code's lengths, into the front of the buffer that then takes all lengths. */
  method ReadCodeLengths(br: BitReader, lengths: array<nat>, n: nat) returns (ok: bool)
    requires br.Valid() && lengths.Length == MAX_LENGTHS && n <= 19
    requires lengths[..19] == CodeLengthCode(br.input, br.TellBit(), 0)
    modifies br, lengths
    ensures br.Valid()
    ensures ok <==> old(br.TellBit()) + 3 * n <= 8 * |br.input|
    ensures ok ==> br.TellBit() == old(br.TellBit()) + 3 * n
    ensures ok ==> lengths[..19] == CodeLengthCode(br.input, old(br.TellBit()), n)
  {
    hide Agrees, Val, CodeLengthCode;
    ghost var p := br.TellBit();
    var i := 0;
    while i < n
      invariant 0 <= i <= n && br.Valid() && br.TellBit() == p + 3 * i
      invariant lengths[..19] == CodeLengthCode(br.input, p, i)
    {
      var v := br.Read(3);
      if v.Err? { return false; }
      CodeLengthStep(br.input, p, i);
      PutLength(lengths, CODE_LENGTH_ORDER[i], v.value);
      i := i + 1;
    }
    ok := true;
  }

  lemma CodeLengthStep(input: seq<u8>, p: nat, i: nat)
    requires i < 19
    ensures CODE_LENGTH_ORDER[i] < 19
    ensures CodeLengthCode(input, p, i + 1)
         == CodeLengthCode(input, p, i)[CODE_LENGTH_ORDER[i] := Val(input, p + 3 * i, 3)]
  {
    hide Val;
  }

  method PutLength(lengths: array<nat>, k: nat, v: nat)
    requires lengths.Length == MAX_LENGTHS && k < 19
    modifies lengths
    ensures lengths[..19] == old(lengths[..19])[k := v]
  {
    ghost var before := lengths[..19];
    lengths[k] := v;
    assert lengths[..19] == before[k := v];
  }

  /** One code-length symbol, or a repeat, written at i. */
  method SafeOneLength(br: BitReader, cl: Table, lengths: array<nat>, i: nat, total: nat) returns (r: Option<nat>)
    requires br.Valid() && cl.Valid() && lengths != cl.count && lengths != cl.symbol && lengths != cl.lut
    requires i < total <= lengths.Length
    modifies br, lengths
    ensures br.Valid()
    ensures var all := SafeLengths(cl.lengths, br.input, old(br.TellBit()), old(lengths[..i]), total);
      match r
      case None => all == None
      case Some(next) =>
        && i < next <= total
        && SafeLengths(cl.lengths, br.input, br.TellBit(), lengths[..next], total) == all
  {
    hide Agrees, Val, Fits, ShortLengths, SlotSound, Huffman.SortedSymbols, Count, Huffman.SymAt, Repeat,
      RepeatExtra, RepeatBase;
    var sym := Decode(br, cl);
    ghost var acc := lengths[..i];
    if sym.Err? || sym.value > 18 || (sym.value == 16 && i == 0) {
      return None;
    }
    if sym.value <= 15 {
      lengths[i] := sym.value;
      assert lengths[..i + 1] == acc + [sym.value];
      return Some(i + 1);
    }
    var n := ReadRepeat(br, sym.value);
    if n.Err? || i + n.value > total {
      return None;
    }
    FillLengths(lengths, i, n.value, if sym.value == 16 then lengths[i - 1] else 0);
    r := Some(i + n.value);
  }

  /** All code lengths, continued in the same buffer. */
  method SafeAllLengths(br: BitReader, cl: Table, lengths: array<nat>, total: nat) returns (ok: bool)
    requires br.Valid() && cl.Valid() && lengths != cl.count && lengths != cl.symbol && lengths != cl.lut
    requires total <= lengths.Length
    modifies br, lengths
    ensures br.Valid()
    ensures match SafeLengths(cl.lengths, br.input, old(br.TellBit()), [], total)
      case None => !ok
      case Some((all, end)) => ok && lengths[..total] == all && br.TellBit() == end
  {
    hide Agrees, Val, SafeLengths, Fits, ShortLengths, SlotSound, Huffman.SortedSymbols, Count, Huffman.SymAt;
    ghost var p := br.TellBit();
    var i := 0;
    assert lengths[..0] == [];
    while i < total
      invariant 0 <= i <= total && br.Valid() && cl.Valid()
      invariant SafeLengths(cl.lengths, br.input, br.TellBit(), lengths[..i], total)
             == SafeLengths(cl.lengths, br.input, p, [], total)
      decreases total - i
    {
      var next := SafeOneLength(br, cl, lengths, i, total);
      if next.None? { return false; }
      i := next.value;
    }
    AllRead(cl.lengths, br.input, br.TellBit(), lengths[..i]);
    ok := true;
  }

  lemma AllRead(cl: seq<nat>, input: seq<u8>, p: nat, acc: seq<nat>)
    ensures SafeLengths(cl, input, p, acc, |acc|) == Some((acc, p))
  {
  }

  /** The rest of the header, once the counts are known; the code-length table is built first and then
      built over. */
  method ReadCodes(br: BitReader, lc: Table, dc: Table, nlen: nat, ndist: nat, ncode: nat) returns (ok: bool)
    requires br.Valid() && lc.Shape() && dc.Shape() && lc.symbol.Length == 286 && dc.symbol.Length == 30
    requires 257 <= nlen <= 286 && 0 < ndist <= 30 && ncode <= 19
    requires lc != dc && {lc.count, lc.symbol, lc.lut} !! {dc.count, dc.symbol, dc.lut}
    modifies br, lc, lc.count, lc.symbol, lc.lut, dc, dc.count, dc.symbol, dc.lut
    ensures br.Valid()
    ensures match CodesAt(br.input, old(br.TellBit()), nlen, ndist, ncode)
      case None => !ok
      case Some(h) =>
        ok && lc.Valid() && dc.Valid() && lc.lengths == h.lit && dc.lengths == h.dist && br.TellBit() == h.end
  {
    hide Agrees, Val, CodeLengthCode, SafeLengths, Fits, ShortLengths, Kraft, Offset, SlotSound,
      Huffman.SortedSymbols, Count;
    var lengths;
    ok, lengths := ReadLengthTable(br, lc, ncode);
    if !ok { return; }
    var total := nlen + ndist;
    ok := SafeAllLengths(br, lc, lengths, total);
    if !ok { return; }
    SplitLengths(lengths[..], nlen, total);
    if lengths[256] == 0 { return false; }
    var built := lc.Construct(lengths[..nlen]);
    if built.Err? { return false; }
    built := dc.Construct(lengths[nlen..total]);
    ok := built.Ok?;
  }

  /** The code-length table, and the buffer the lengths go into. */
  method ReadLengthTable(br: BitReader, lc: Table, ncode: nat) returns (ok: bool, lengths: array<nat>)
    requires br.Valid() && lc.Shape() && lc.symbol.Length == 286 && ncode <= 19
    modifies br, lc, lc.count, lc.symbol, lc.lut
    ensures br.Valid() && fresh(lengths) && lengths.Length == MAX_LENGTHS
    ensures var p := old(br.TellBit());
      var cl := CodeLengthCode(br.input, p, ncode);
      && (ok <==> p + 3 * ncode <= 8 * |br.input| && Huffman.Accepts(cl, false))
      && (ok ==> lc.Valid() && lc.lengths == cl && br.TellBit() == p + 3 * ncode)
  {
    hide Agrees, Val, CodeLengthCode, Fits, ShortLengths, Kraft, Offset, SlotSound, Huffman.SortedSymbols, Count;
    lengths := new nat[MAX_LENGTHS](_ => 0);
    NoCodeLengths(br.input, br.TellBit(), lengths[..19]);
    ok := ReadCodeLengths(br, lengths, ncode);
    if !ok { return; }
    var built := lc.Construct(lengths[..19]);
    ok := built.Ok?;
  }

  lemma NoCodeLengths(input: seq<u8>, p: nat, zeros: seq<nat>)
    requires |zeros| == 19 && forall i | 0 <= i < 19 :: zeros[i] == 0
    ensures zeros == CodeLengthCode(input, p, 0)
  {
  }

  lemma SplitLengths(lengths: seq<nat>, n: nat, total: nat)
    requires n <= total <= |lengths|
    ensures lengths[..total][..n] == lengths[..n] && lengths[..total][n..] == lengths[n..total]
  {
  }

  /** `dynamic`, up to its symbols. */
  method SafeHeader(br: BitReader) returns (ok: bool, lc: Table, dc: Table)
    requires br.Valid()
    modifies br
    ensures br.Valid()
    ensures fresh(lc) && fresh(lc.count) && fresh(lc.symbol) && fresh(lc.lut)
    ensures fresh(dc) && fresh(dc.count) && fresh(dc.symbol) && fresh(dc.lut)
    ensures match SafeHeaderAt(br.input, old(br.TellBit()))
      case None => !ok
      case Some(h) =>
        ok && lc.Valid() && dc.Valid() && lc.lengths == h.lit && dc.lengths == h.dist && br.TellBit() == h.end
  {
    hide Agrees, Val, CodesAt, Fits, ShortLengths, SlotSound, Huffman.SortedSymbols, Count;
    lc := new Table(286);
    dc := new Table(30);
    ValBoundFour(br.input, br.TellBit() + 10);
    var counts := ReadCounts(br);
    if counts.Err? { return false, lc, dc; }
    var (nlen, ndist, ncode) := counts.value;
    ok := ReadCodes(br, lc, dc, nlen, ndist, ncode);
  }

  // Blocks and streams

  /** The block at p, to the last bit: only the header of a dynamic block differs from `BlockAt`. */
  ghost function SafeBlockAt(input: seq<u8>, p: nat): Block {
    if p + 3 <= 8 * |input| && Val(input, p + 1, 2) == 2 then
      match SafeHeaderAt(input, p + 3)
      case None => BadBlock
      case Some(h) => CompressedBlock(RunFrom(h.lit, h.dist, input, h.end), Val(input, p, 1) != 0)
    else BlockAt(input, p)
  }

  /** Ten bits are there for every lookup in the header of the block at p, if it has one. */
  ghost predicate HeaderRoom(input: seq<u8>, p: nat) {
    Val(input, p + 1, 2) == 2 ==> LastLengthAt(input, p + 3) + 10 <= 8 * |input|
  }

  /** The two decoders' blocks are the same, but for those ten bits. */
  lemma BlocksAgree(input: seq<u8>, p: nat)
    ensures var b, s := BlockAt(input, p), SafeBlockAt(input, p);
      && (b.Block? <==> s.Block? && HeaderRoom(input, p))
      && (b.Block? ==> s == b)
  {
    hide Val, HeaderAt, SafeHeaderAt, RunFrom, StoredFrom, FixedLit, FixedDist, LastLengthAt;
    HeadersAgree(input, p + 3);
  }

  lemma SafeBlockFacts(input: seq<u8>, p: nat)
    ensures var b := SafeBlockAt(input, p); b.Block? ==> p < b.end <= 8 * |input|
  {
    hide Val, HeaderAt, RunFrom, StoredFrom, BlockAt, CodeLengthCode, SafeLengths, Fits, Kraft, Offset;
    BlockFacts(input, p);
    var s := SafeHeaderAt(input, p + 3);
    ValBoundFour(input, p + 13);
    if s.Some? { RunFacts(s.value.lit, s.value.dist, input, s.value.end); }
  }

  /** The whole stream from p: all its output and its end, or nothing. */
  ghost function SafeFrom(input: seq<u8>, p: nat, out: seq<u8>): Option<(seq<u8>, nat)>
    decreases 8 * |input| - p
  {
    SafeBlockFacts(input, p);
    match SafeBlockAt(input, p)
    case BadBlock => None
    case Block(ts, final, end) =>
      match Apply(out, ts)
      case None => None
      case Some(next) => if final then Some((next, end)) else SafeFrom(input, end, next)
  }

  /** `stored`: back to the byte boundary, then straight from the input. */
  method SafeStored(br: BitReader, out0: seq<u8>) returns (ok: bool, out: seq<u8>)
    requires br.Valid()
    modifies br
    ensures br.Valid()
    ensures var a := Aligned(old(br.TellBit()));
      var len := Val(br.input, a, 16);
      if a + 32 > 8 * |br.input| || len + Val(br.input, a + 16, 16) != 0xFFFF || a + 32 + 8 * len > 8 * |br.input|
      then !ok
      else ok && br.TellBit() == a + 32 + 8 * len && Apply(out0, StoredFrom(br.input, a + 32, len)) == Some(out)
  {
    hide Agrees, Val, Apply, StoredFrom, Aligned, Xor;
    out := out0;
    br.ByteAlign();
    AlignedIs(old(br.TellBit()), br.TellBit());
    var input := br.input;
    var pos := br.bytePos - br.bits / 8;
    assert br.TellBit() == 8 * pos;
    if pos + 4 > |input| {
      return false, out;
    }
    var b0: int, b1: int, b2: int, b3: int := input[pos], input[pos + 1], input[pos + 2], input[pos + 3];
    var len, nlen := b0 + 0x100 * b1, b2 + 0x100 * b3;
    TwoBytes(input, pos);
    TwoBytes(input, pos + 2);
    SixteenDiffer(len, nlen);
    if Xor(len, nlen) != 0xFFFF {
      return false, out;
    }
    if pos + 4 + len > |input| {
      return false, out;
    }
    StoredIsSlice(input, pos + 4, len, out0);
    out := out0 + input[pos + 4..pos + 4 + len];
    var seek := br.SeekToBit(8 * (pos + 4 + len));
    ok := true;
  }

  lemma TwoBytes(input: seq<u8>, pos: nat)
    requires pos + 2 <= |input|
    ensures var b0: int, b1: int := input[pos], input[pos + 1];
      Val(input, 8 * pos, 16) == b0 + 0x100 * b1 && b0 + 0x100 * b1 <= 0xFFFF
  {
    hide Val, Shl;
    ValByte(input, pos);
    ValByte(input, pos + 1);
    SplitVal(input, 8 * pos, 8, 8);
    assert 8 * pos + 8 == 8 * (pos + 1);
    ShlEight(input[pos + 1]);
  }

  lemma SixteenDiffer(a: nat, b: nat)
    requires a <= 0xFFFF && b <= 0xFFFF
    ensures Xor(a, b) == 0xFFFF <==> a + b == 0xFFFF
  {
    assert Pow2(8) == 256 && Pow2(12) == 4096 && Pow2(14) == 16384;
    assert Pow2(16) == 0x1_0000;
    XorComplement(a, b, 16);
  }

  /** A stored block's output is a piece of the input. */
  lemma {:induction false} StoredIsSlice(input: seq<u8>, pos: nat, n: nat, out: seq<u8>)
    requires pos + n <= |input|
    ensures Apply(out, StoredFrom(input, 8 * pos, n)) == Some(out + input[pos..pos + n])
    decreases n
  {
    hide Apply, StoredFrom, Val;
    if n == 0 {
      StoredEmpty(input, 8 * pos, out);
      assert out + input[pos..pos] == out;
    } else {
      StoredOne(input, pos, n, out);
      StoredIsSlice(input, pos + 1, n - 1, out + [input[pos]]);
      SliceHead(input, pos, n, out);
    }
  }

  lemma StoredEmpty(input: seq<u8>, p: nat, out: seq<u8>)
    ensures Apply(out, StoredFrom(input, p, 0)) == Some(out)
  {
  }

  lemma SliceHead(input: seq<u8>, pos: nat, n: nat, out: seq<u8>)
    requires pos + n <= |input| && n > 0
    ensures out + input[pos..pos + n] == out + [input[pos]] + input[pos + 1..pos + 1 + (n - 1)]
  {
  }

  lemma StoredOne(input: seq<u8>, pos: nat, n: nat, out: seq<u8>)
    requires pos + n <= |input| && n > 0
    ensures Apply(out, StoredFrom(input, 8 * pos, n))
         == Apply(out + [input[pos]], StoredFrom(input, 8 * (pos + 1), n - 1))
  {
    hide Apply, StoredFrom, Val;
    ValByte(input, pos);
    StoredStep(out, input, 8 * pos, n);
    assert 8 * (pos + 1) == 8 * pos + 8;
  }

  /** No literal from 144 on has a slot in the table of the fixed code: their nine-bit codes, from 400 on,
      all have the ninth bit. */
  lemma FixedNineBits(s: nat)
    requires 144 <= s < 256
    ensures FixedLit()[s] == 9 && Code(FixedLit(), s) == 256 + s
    ensures var idx := Reverse(256 + s, 9);
      idx < LUT_SIZE && Sym(FixedLit(), idx) == s && FilledSlot(FixedLit(), 288, idx) == 0
  {
    hide Reverse, Sym, FilledSlot, Low, CountTo, First, ShortLengths, Fits;
    FixedFirstLong();
    FixedLitCount(9, s);
    var idx := Reverse(256 + s, 9);
    ReverseBound(256 + s, 9);
    assert Pow2(9) == 512;
    LowSmall(idx, 9);
    MsbVersusLow(idx, 256 + s, 9);
    SymIs(FixedLit(), s, idx);
    FixedFit();
    AllCodedSlots(FixedLit(), idx);
  }

  /** The first of them is slot 19: it stays empty although it shows the code of 144. */
  lemma SlotNineteenEmpty()
    ensures Sym(FixedLit(), 19) == 144 && FilledSlot(FixedLit(), 288, 19) == 0
  {
    hide Reverse, Sym, FilledSlot, FixedLit, Code;
    FixedNineBits(144);
    FourHundredReversed();
  }

  lemma FourHundredReversed()
    ensures Reverse(400, 9) == 19
  {
    assert Reverse(1, 1) == 1 && Reverse(3, 2) == 3 && Reverse(6, 3) == 3 && Reverse(12, 4) == 3;
    assert Shl(1, 4) == 16 && Reverse(25, 5) == 19 && Reverse(50, 6) == 19 && Reverse(100, 7) == 19;
  }

  /** The tables of the fixed codes. */
  method SafeFixed() returns (lc: Table, dc: Table)
    ensures lc.Valid() && dc.Valid() && lc.lengths == FixedLit() && dc.lengths == FixedDist()
    ensures forall idx: nat | idx < LUT_SIZE :: lc.lut[idx] == FilledSlot(FixedLit(), 288, idx)
    ensures fresh(lc) && fresh(lc.count) && fresh(lc.symbol) && fresh(lc.lut)
    ensures fresh(dc) && fresh(dc.count) && fresh(dc.symbol) && fresh(dc.lut)
  {
    hide ShortLengths, Fits, FixedLit, FixedDist, SlotSound, Huffman.SortedSymbols, Count;
    FixedFit();
    FixedSizes();
    lc := new Table(288);
    dc := new Table(30);
    var l := lc.Construct(FixedLit());
    var d := dc.Construct(FixedDist());
  }

  /** One block. */
  method SafeBlock(br: BitReader, out0: seq<u8>) returns (r: Option<bool>, out: seq<u8>)
    requires br.Valid()
    modifies br
    ensures br.Valid()
    ensures var b := SafeBlockAt(br.input, old(br.TellBit()));
      match r
      case Some(final) => b.Block? && b.final == final && b.end == br.TellBit() && Apply(out0, b.tokens) == Some(out)
      case None => b.BadBlock? || Apply(out0, b.tokens).None?
  {
    hide Agrees, Val, Apply, RunFrom, StoredFrom, HeaderAt, SafeHeaderAt, FixedLit, FixedDist, ShortLengths, Fits,
      SlotSound, Huffman.SortedSymbols, Count;
    out := out0;
    var last := br.Read(1);
    if last.Err? { return None, out; }
    var btype := br.Read(2);
    if btype.Err? { return None, out; }
    var ok := false;
    if btype.value == 0 {
      ok, out := SafeStored(br, out0);
    } else if btype.value <= 2 {
      var lc, dc;
      if btype.value == 1 {
        lc, dc := SafeFixed();
        ok := true;
      } else {
        ok, lc, dc := SafeHeader(br);
      }
      if ok {
        var u;
        u, out := Codes(br, lc, dc, out0);
        ok := u.Ok?;
      }
    }
    r := if ok then Some(last.value != 0) else None;
  }

  /** `inflate_into`: the whole stream, and how many bytes of the input it took. */
  method InflateInto(input: seq<u8>, out0: seq<u8>) returns (r: Option<nat>, out: seq<u8>)
    ensures match SafeFrom(input, 0, out0)
      case None => r == None
      case Some((o, end)) => r == Some((end + 7) / 8) && out == o
  {
    hide SafeBlockAt, Apply, Agrees;
    var br := new BitReader(input);
    out := out0;
    while true
      invariant br.Valid() && br.input == input
      invariant SafeFrom(input, br.TellBit(), out) == SafeFrom(input, 0, out0)
      decreases 8 * |input| - br.TellBit()
    {
      SafeBlockFacts(input, br.TellBit());
      var last;
      last, out := SafeBlock(br, out);
      if last.None? {
        return None, out;
      }
      if last.value {
        BytesTaken(br.bytePos, br.bits);
        return Some(br.bytePos - br.bits / 8), out;
      }
    }
  }

  lemma BytesTaken(bytePos: nat, bits: nat)
    requires bits <= 8 * bytePos
    ensures bytePos - bits / 8 == (8 * bytePos - bits + 7) / 8
  {
  }
}
