/** The meaning of a DEFLATE block as a function of the bits alone: headers, symbols and the tokens
    they stand for never depend on the output window. */
module Deflate {
  import opened Words
  import opened BitStream
  import opened Canonical
  import opened Tables
  import opened Huffman
  import opened Lz77

  // Symbols

  /** A distance symbol with its extra bits at p, and the position after it. */
  function DistanceAt(dist: seq<nat>, input: seq<u8>, p: nat): Option<(nat, nat)> {
    var d := SymAt(dist, input, p);
    if d < 0 || d > 29 then None
    else
      var q := p + dist[d];
      Some((DistanceBase(d) + Val(input, q, DistanceExtra(d)), q + DistanceExtra(d)))
  }

  datatype Step = Emit(token: Token, next: nat) | EndOfBlock(next: nat) | BadSymbol

  /** The literal, match or end marker at p. */
  function StepAt(lit: seq<nat>, dist: seq<nat>, input: seq<u8>, p: nat): Step {
    var s := SymAt(lit, input, p);
    if s < 0 || s > 285 then BadSymbol
    else
      var p1 := p + lit[s];
      if s < 256 then Emit(Lit(s), p1)
      else if s == 256 then EndOfBlock(p1)
      else
        var extra := LengthExtra(s);
        match DistanceAt(dist, input, p1 + extra)
        case None => BadSymbol
        case Some((distance, next)) =>
          Emit(Copy(LengthBase(s) + Val(input, p1, extra), distance), next)
  }

  lemma StepAdvances(lit: seq<nat>, dist: seq<nat>, input: seq<u8>, p: nat)
    ensures var s := StepAt(lit, dist, input, p); !s.BadSymbol? ==> s.next > p
  {
  }

  /** Matches copy 3 to 258 bytes from 1 to 32768 back. */
  lemma StepValid(lit: seq<nat>, dist: seq<nat>, input: seq<u8>, p: nat)
    ensures var s := StepAt(lit, dist, input, p); s.Emit? ==> ValidToken(s.token)
  {
    hide Val, SymAt, LengthBase, LengthExtra, DistanceBase, DistanceExtra;
    var s := SymAt(lit, input, p);
    if 257 <= s <= 285 {
      var extra := LengthExtra(s);
      var p1 := p + lit[s];
      ValBound(input, p1, extra);
      LengthRange(s, Val(input, p1, extra));
      var d := SymAt(dist, input, p1 + extra);
      if 0 <= d <= 29 {
        ValBound(input, p1 + extra + dist[d], DistanceExtra(d));
        DistanceRange(d, Val(input, p1 + extra + dist[d], DistanceExtra(d)));
      }
    }
  }

  datatype RunEnd = Done(pos: nat) | Malformed | Truncated

  datatype Run = Run(tokens: seq<Token>, end: RunEnd)

  /** The tokens from p to the end of the block, or to the first symbol that is malformed or cut off
      by the end of the input. */
  function RunFrom(lit: seq<nat>, dist: seq<nat>, input: seq<u8>, p: nat): Run
    decreases 8 * |input| - p
  {
    StepAdvances(lit, dist, input, p);
    if p >= 8 * |input| then Run([], Truncated)
    else match StepAt(lit, dist, input, p)
      case BadSymbol => Run([], Malformed)
      case EndOfBlock(q) => Run([], if q > 8 * |input| then Truncated else Done(q))
      case Emit(t, q) =>
        if q > 8 * |input| then Run([], Truncated)
        else
          var rest := RunFrom(lit, dist, input, q);
          Run([t] + rest.tokens, rest.end)
  }

  lemma {:induction false} RunFacts(lit: seq<nat>, dist: seq<nat>, input: seq<u8>, p: nat)
    ensures var r := RunFrom(lit, dist, input, p);
      ValidTokens(r.tokens) && (r.end.Done? ==> p < r.end.pos <= 8 * |input|)
    decreases 8 * |input| - p
  {
    hide StepAt, ValidToken;
    StepAdvances(lit, dist, input, p);
    StepValid(lit, dist, input, p);
    var s := StepAt(lit, dist, input, p);
    if p < 8 * |input| && s.Emit? && s.next <= 8 * |input| {
      RunFacts(lit, dist, input, s.next);
    }
  }

  /** Where the last symbol of a run starts: for a run that reaches the end of its block, the code for
      that end. */
  function LastCode(lit: seq<nat>, dist: seq<nat>, input: seq<u8>, p: nat): (q: nat)
    ensures q >= p
    decreases 8 * |input| - p
  {
    StepAdvances(lit, dist, input, p);
    var s := StepAt(lit, dist, input, p);
    if p < 8 * |input| && s.Emit? && s.next <= 8 * |input| then LastCode(lit, dist, input, s.next) else p
  }

  lemma {:induction false} LastCodeBefore(lit: seq<nat>, dist: seq<nat>, input: seq<u8>, p: nat)
    ensures var r := RunFrom(lit, dist, input, p); r.end.Done? ==> LastCode(lit, dist, input, p) < r.end.pos
    decreases 8 * |input| - p
  {
    hide StepAt;
    StepAdvances(lit, dist, input, p);
    var s := StepAt(lit, dist, input, p);
    if p < 8 * |input| && s.Emit? && s.next <= 8 * |input| { LastCodeBefore(lit, dist, input, s.next); }
  }

  // Dynamic header (section 3.2.7)

  /** The code-length code: n three-bit lengths from p, in the format's order. */
  function CodeLengthCode(input: seq<u8>, p: nat, n: nat): (cl: seq<nat>)
    requires n <= 19
    ensures |cl| == 19
    decreases n
  {
    if n == 0 then seq(19, _ => 0)
    else
      OrderBelow(n - 1);
      CodeLengthCode(input, p, n - 1)[CODE_LENGTH_ORDER[n - 1] := Val(input, p + 3 * (n - 1), 3)]
  }

  function Repeat(x: nat, n: nat): (r: seq<nat>)
    ensures |r| == n
  {
    seq(n, _ => x)
  }

  /** Extra bits and smallest count of the repeat symbols 16, 17 and 18. */
  function RepeatExtra(sym: nat): nat {
    if sym == 16 then 2 else if sym == 17 then 3 else 7
  }

  function RepeatBase(sym: nat): (n: nat)
    ensures n >= 3
  {
    if sym == 18 then 11 else 3
  }

  /** Run-length coded code lengths: `acc` continued from p up to `total` of them. */
  function LengthsFrom(cl: seq<nat>, input: seq<u8>, p: nat, acc: seq<nat>, total: nat)
      : (r: Result<(seq<nat>, nat)>)
    requires |acc| <= total
    ensures r.Ok? ==> |r.value.0| == total && r.value.1 >= p
    decreases total - |acc|
  {
    if |acc| == total then Ok((acc, p))
    else match LookupAt(cl, Simple, input, p)
      case Err(e) => Err(e)
      case Ok(entry) =>
        var q := p + cl[SymAt(cl, input, p)];
        var sym := Hi(entry);
        if sym <= 15 then LengthsFrom(cl, input, q, acc + [sym], total)
        else if sym > 18 then Err(Invalid)
        else
          var extra := RepeatExtra(sym);
          if sym == 16 && acc == [] then Err(Invalid)
          else if q + extra > 8 * |input| then Err(UnexpectedEof)
          else
            var n := Val(input, q, extra) + RepeatBase(sym);
            if |acc| + n > total then Err(Invalid)
            else
              var what := if sym == 16 then acc[|acc| - 1] else 0;
              LengthsFrom(cl, input, q + extra, acc + Repeat(what, n), total)
  }

  datatype Header = Header(lit: seq<nat>, dist: seq<nat>, end: nat)

  /** All code lengths the header at p announces, how many of them are literal/length ones, and the
      position after them. */
  ghost function LengthsAt(input: seq<u8>, p: nat, strict: bool): (r: Result<(seq<nat>, nat, nat)>)
    ensures r.Ok? ==> 257 <= r.value.1 <= 286 && r.value.1 < |r.value.0| <= r.value.1 + 30
  {
    if p + 14 > 8 * |input| then Err(UnexpectedEof)
    else
      var hlit := Val(input, p, 5) + 257;
      var hdist := Val(input, p + 5, 5) + 1;
      var hclen := Val(input, p + 10, 4) + 4;
      ValBoundFour(input, p + 10);
      if hlit > 286 || hdist > 30 then Err(Invalid)
      else if p + 14 + 3 * hclen > 8 * |input| then Err(UnexpectedEof)
      else
        var cl := CodeLengthCode(input, p + 14, hclen);
        if !Accepts(cl, strict) then Err(Invalid)
        else match LengthsFrom(cl, input, p + 14 + 3 * hclen, [], hlit + hdist)
          case Err(e) => Err(e)
          case Ok((lengths, end)) => Ok((lengths, hlit, end))
  }

  /** The header at p (just after the block type); `strict` also refuses incomplete codes. */
  ghost function HeaderAt(input: seq<u8>, p: nat, strict: bool): Result<Header> {
    match LengthsAt(input, p, strict)
    case Err(e) => Err(e)
    case Ok((lengths, hlit, end)) =>
      if lengths[256] == 0 then Err(Invalid)
      else if !Accepts(lengths[..hlit], strict) || !Accepts(lengths[hlit..], strict) then Err(Invalid)
      else Ok(Header(lengths[..hlit], lengths[hlit..], end))
  }

  lemma ValBoundFour(input: seq<u8>, p: nat)
    ensures Val(input, p, 4) < 16
  {
    ValBound(input, p, 4);
    assert Pow2(4) == 16;
  }

  /** Whatever the strict parser of the block finder takes, the decoder's tolerant parser takes, with
      the same code lengths and end. */
  lemma StrictIsTolerant(input: seq<u8>, p: nat)
    ensures HeaderAt(input, p, true).Ok? ==> HeaderAt(input, p, false) == HeaderAt(input, p, true)
  {
    hide CodeLengthCode, LengthsFrom, ShortLengths, Fits, Kraft, Offset, Val;
  }

  // Blocks

  function FixedLit(): seq<nat> {
    seq(288, i => if i < 144 then 8 else if i < 256 then 9 else if i < 280 then 7 else 8)
  }

  function FixedDist(): seq<nat> {
    seq(30, _ => 5)
  }

  function ByteAt(input: seq<u8>, p: nat): u8 {
    ValBoundEight(input, p);
    Val(input, p, 8)
  }

  lemma ValBoundEight(input: seq<u8>, p: nat)
    ensures Val(input, p, 8) < 256
  {
    ValBound(input, p, 8);
    assert Pow2(8) == 256;
  }

  /** n literal bytes from p. */
  function StoredFrom(input: seq<u8>, p: nat, n: nat): seq<Token>
    decreases n
  {
    if n == 0 then [] else [Lit(ByteAt(input, p))] + StoredFrom(input, p + 8, n - 1)
  }

  function Aligned(p: nat): nat {
    (p + 7) / 8 * 8
  }

  datatype Block = Block(tokens: seq<Token>, final: bool, end: nat) | BadBlock

  function CompressedBlock(run: Run, final: bool): Block {
    if run.end.Done? then Block(run.tokens, final, run.end.pos) else BadBlock
  }

  /** The symbols of a fixed (1) or dynamic (2) block whose type ends at p. */
  ghost function BodyAt(input: seq<u8>, p: nat, btype: nat): Run {
    if btype == 1 then RunFrom(FixedLit(), FixedDist(), input, p)
    else match HeaderAt(input, p, false)
      case Err(_) => Run([], Malformed)
      case Ok(h) => RunFrom(h.lit, h.dist, input, h.end)
  }

  /** The block at bit p. */
  ghost function BlockAt(input: seq<u8>, p: nat): Block {
    if p + 3 > 8 * |input| then BadBlock
    else
      var final := Val(input, p, 1) != 0;
      var btype := Val(input, p + 1, 2);
      if btype == 0 then
        var a := Aligned(p + 3);
        var len := Val(input, a, 16);
        if a + 32 > 8 * |input| || len + Val(input, a + 16, 16) != 0xFFFF then BadBlock
        else if a + 32 + 8 * len > 8 * |input| then BadBlock
        else Block(StoredFrom(input, a + 32, len), final, a + 32 + 8 * len)
      else if btype <= 2 then CompressedBlock(BodyAt(input, p + 3, btype), final)
      else BadBlock
  }

  lemma {:induction false} StoredValid(input: seq<u8>, p: nat, n: nat)
    ensures ValidTokens(StoredFrom(input, p, n)) && |StoredFrom(input, p, n)| == n
    decreases n
  {
    if n > 0 { StoredValid(input, p + 8, n - 1); }
  }

  lemma HeaderAdvances(input: seq<u8>, p: nat, strict: bool)
    ensures var h := HeaderAt(input, p, strict);
      h.Ok? ==> h.value.end >= p + 14 && ShortLengths(h.value.lit) && Fits(h.value.lit)
                && ShortLengths(h.value.dist) && Fits(h.value.dist)
                && |h.value.lit| <= 286 && |h.value.dist| <= 30
  {
    hide CodeLengthCode, LengthsFrom, ShortLengths, Fits, Kraft, Offset, Val;
    ValBoundFour(input, p + 10);
  }

  /** A block moves the position forward, inside the input, and emits valid tokens. */
  lemma BlockFacts(input: seq<u8>, p: nat)
    ensures var b := BlockAt(input, p);
      b.Block? ==> p < b.end <= 8 * |input| && ValidTokens(b.tokens)
  {
    hide HeaderAt, RunFrom, StoredFrom, Val, FixedLit, FixedDist;
    var b := BlockAt(input, p);
    if b.Block? {
      var btype := Val(input, p + 1, 2);
      if btype == 0 {
        StoredValid(input, Aligned(p + 3) + 32, Val(input, Aligned(p + 3), 16));
      } else if btype == 1 {
        RunFacts(FixedLit(), FixedDist(), input, p + 3);
      } else {
        HeaderAdvances(input, p + 3, false);
        var h := HeaderAt(input, p + 3, false).value;
        RunFacts(h.lit, h.dist, input, h.end);
      }
    }
  }

  // The fixed codes are accepted

  lemma {:induction false} FixedLitCount(l: nat, n: nat)
    requires n <= 288
    ensures CountTo(FixedLit(), l, n) ==
      if l == 7 then (if n < 256 then 0 else if n < 280 then n - 256 else 24)
      else if l == 8 then (if n < 144 then n else if n < 280 then 144 else n - 136)
      else if l == 9 then (if n < 144 then 0 else if n < 256 then n - 144 else 112)
      else 0
  {
    if n > 0 { FixedLitCount(l, n - 1); }
  }

  lemma {:induction false} FixedFirst(l: nat)
    requires l <= 7
    ensures First(FixedLit(), l) == 0
  {
    if l > 0 {
      FixedSizes();
      FixedFirst(l - 1);
      FixedLitCount(l - 1, 288);
    }
  }

  lemma FixedFirstLong()
    ensures First(FixedLit(), 8) == 48 && First(FixedLit(), 9) == 400
  {
    hide FixedLit, CountTo;
    FixedSizes();
    FixedFirst(7);
    FixedLitCount(7, 288);
    FixedLitCount(8, 288);
    assert First(FixedLit(), 8) == 2 * (First(FixedLit(), 7) + Count(FixedLit(), 7));
  }

  lemma {:induction false} FixedDistCount(l: nat, n: nat)
    requires n <= 30
    ensures CountTo(FixedDist(), l, n) == if l == 5 then n else 0
  {
    if n > 0 { FixedDistCount(l, n - 1); }
  }

  lemma {:induction false} FixedDistFirst(l: nat)
    requires l <= 5
    ensures First(FixedDist(), l) == 0
  {
    if l > 0 {
      FixedSizes();
      FixedDistFirst(l - 1);
      FixedDistCount(l - 1, 30);
    }
  }

  lemma FixedFit()
    ensures ShortLengths(FixedLit()) && Fits(FixedLit())
    ensures ShortLengths(FixedDist()) && Fits(FixedDist())
  {
    forall l: nat | l <= MAX_CODE_LEN ensures Left(FixedLit(), l) >= 0 && Left(FixedDist(), l) >= 0 {
      FixedLeft(l);
    }
    LeftDecides(FixedLit());
    LeftDecides(FixedDist());
  }

  lemma {:induction false} FixedLeft(l: nat)
    ensures l < 7 ==> Left(FixedLit(), l) == Pow2(l)
    ensures l == 7 ==> Left(FixedLit(), l) == 104
    ensures l == 8 ==> Left(FixedLit(), l) == 56
    ensures l >= 9 ==> Left(FixedLit(), l) == 0
    ensures l < 5 ==> Left(FixedDist(), l) == Pow2(l)
    ensures l == 5 ==> Left(FixedDist(), l) == 2
    ensures l >= 6 ==> Left(FixedDist(), l) >= 0
  {
    hide FixedLit, FixedDist, CountTo;
    if l > 0 {
      FixedLeft(l - 1);
      FixedSizes();
      FixedLitCount(l, 288);
      FixedDistCount(l, 30);
      assert Pow2(6) == 64 && Pow2(4) == 16;
    }
  }

  lemma FixedSizes()
    ensures |FixedLit()| == 288 && |FixedDist()| == 30
  {
  }
}
