/** The block finder (deflate/block_finder.rs): a 13-bit prefilter with skips, a strict header parse and
    a short trial decode. Its answers are guesses; what it promises is that they can be parsed. */
module BlockFinder {
  import opened Words
  import opened BitStream
  import opened Canonical
  import opened Tables
  import opened Huffman
  import opened Lz77
  import opened Deflate
  import opened Kernels
  import opened Blocks

  const WINDOW_BITS: nat := 13

  const WINDOW_SIZE: nat := 0x2000

  const TRIAL_SYMBOLS: nat := 64

  /** The start of a non-final dynamic block, by its first 13 bits. */
  predicate Candidate(w: nat) {
    w % 2 == 0 && w / 2 % 4 == 2 && w / 8 % 32 <= 29 && w / 0x100 % 32 <= 29
  }

  /** In terms of the stream: not final, of dynamic type, both counts in range. */
  lemma CandidateMeans(data: seq<u8>, p: nat)
    ensures Candidate(Val(data, p, WINDOW_BITS)) <==>
      Val(data, p, 1) == 0 && Val(data, p + 1, 2) == 2 && Val(data, p + 3, 5) <= 29 && Val(data, p + 8, 5) <= 29
  {
    hide Val, Shl, Pow2;
    SplitVal(data, p, 1, 12);
    SplitVal(data, p + 1, 2, 10);
    SplitVal(data, p + 3, 5, 5);
    ShlSmall(Val(data, p + 1, 12), Val(data, p + 3, 10), Val(data, p + 8, 5));
    FieldBounds(data, p);
    Fields(Val(data, p, 13), Val(data, p, 1), Val(data, p + 1, 2), Val(data, p + 3, 5), Val(data, p + 8, 5));
  }

  lemma FieldBounds(data: seq<u8>, p: nat)
    ensures Val(data, p, 1) < 2 && Val(data, p + 1, 2) < 4 && Val(data, p + 3, 5) < 32 && Val(data, p + 8, 5) < 32
  {
    hide Val;
    ValBound(data, p, 1);
    ValBound(data, p + 1, 2);
    ValBound(data, p + 3, 5);
    ValBound(data, p + 8, 5);
    assert Pow2(1) == 2 && Pow2(2) == 4 && Pow2(5) == 32;
  }

  lemma ShlSmall(x: nat, y: nat, z: nat)
    ensures Shl(x, 1) == 2 * x && Shl(y, 2) == 4 * y && Shl(z, 5) == 32 * z
  {
    assert Shl(x, 0) == x && Shl(y, 1) == 2 * y;
    assert Shl(z, 1) == 2 * z;
    assert Shl(z, 3) == 8 * z;
  }

  lemma Fields(w: nat, final: nat, btype: nat, hlit: nat, hdist: nat)
    requires final < 2 && btype < 4 && hlit < 32 && hdist < 32
    requires w == final + 2 * (btype + 4 * (hlit + 32 * hdist))
    ensures w % 2 == final && w / 2 % 4 == btype && w / 8 % 32 == hlit && w / 0x100 % 32 == hdist
  {
    assert w / 2 == btype + 4 * (hlit + 32 * hdist);
    assert w / 8 == hlit + 32 * hdist;
    assert w / 0x100 == hdist;
  }

  /** Bits to the first place in the window from which what is left of it, filled up with zeros, looks
      like a start; 13 when there is none. */
  function NextStep(w: nat, n: nat): (s: nat)
    ensures s <= n
    decreases n
  {
    if n == 0 || Candidate(w) then 0 else 1 + NextStep(w / 2, n - 1)
  }

  /** The table of steps, computed entry by entry. */
  method BuildSteps() returns (table: array<nat>)
    ensures fresh(table) && table.Length == WINDOW_SIZE
    ensures forall w: nat | w < WINDOW_SIZE :: table[w] == NextStep(w, WINDOW_BITS)
  {
    table := new nat[WINDOW_SIZE](_ => 0);
    var w: nat := 0;
    while w < WINDOW_SIZE
      invariant 0 <= w <= WINDOW_SIZE
      invariant forall v: nat | v < w :: table[v] == NextStep(v, WINDOW_BITS)
    {
      var step := 0;
      var bits: nat := w;
      while step < WINDOW_BITS && !Candidate(bits)
        invariant 0 <= step <= WINDOW_BITS
        invariant step + NextStep(bits, WINDOW_BITS - step) == NextStep(w, WINDOW_BITS)
      {
        bits := bits / 2;
        step := step + 1;
      }
      table[w] := step;
      w := w + 1;
    }
  }

  /** The steps never jump over a possible start, except at the offsets 11 and 12 of a full jump: there
      the window no longer shows the block type. */
  lemma {:induction false} StepsMissNothing(data: seq<u8>, p: nat, n: nat, j: nat)
    requires n <= WINDOW_BITS && j + 3 <= n && j < NextStep(Val(data, p, n), n)
    ensures !Candidate(Val(data, p + j, WINDOW_BITS))
    decreases j
  {
    hide Candidate, Val;
    if j == 0 {
      CutCandidate(data, p, n, WINDOW_BITS);
    } else {
      HalfVal(data, p, n);
      StepsMissNothing(data, p + 1, n - 1, j - 1);
      assert p + 1 + (j - 1) == p + j;
    }
  }

  lemma HalfVal(data: seq<u8>, p: nat, n: nat)
    requires n > 0
    ensures Val(data, p, n) / 2 == Val(data, p + 1, n - 1)
  {
    hide StreamBit;
  }

  /** What looks like a start on m bits still does when the upper ones are taken for zeros. */
  lemma {:induction false} CutCandidate(data: seq<u8>, p: nat, n: nat, m: nat)
    requires 3 <= n <= m <= WINDOW_BITS
    ensures Candidate(Val(data, p, m)) ==> Candidate(Val(data, p, n))
    decreases m - n
  {
    hide Val, Candidate;
    if n < m {
      CutCandidate(data, p, n + 1, m);
      SplitVal(data, p, n, 1);
      ValBound(data, p, n);
      ValBound(data, p + n, 1);
      CutOne(Val(data, p, n), Val(data, p + n, 1), n);
    }
  }

  /** A one in the top place instead of a zero makes no start out of what is none. */
  lemma CutOne(v: nat, b: nat, n: nat)
    requires 3 <= n < WINDOW_BITS && v < Pow2(n) && b < 2
    ensures Candidate(v + Shl(b, n)) ==> Candidate(v)
  {
    CutPowers();
    if b == 0 { ShlZero(n); } else { ShlOne(n); }
    hide Pow2, Shl;
    if b == 1 { CutTop(v, Pow2(n)); }
  }

  lemma ShlZero(n: nat)
    ensures Shl(0, n) == 0
  {
  }

  lemma CutPowers()
    ensures Pow2(3) == 8 && Pow2(4) == 16 && Pow2(5) == 32 && Pow2(6) == 64 && Pow2(7) == 128
    ensures Pow2(8) == 256 && Pow2(9) == 512 && Pow2(10) == 1024 && Pow2(11) == 2048 && Pow2(12) == 4096
  {
    assert Pow2(5) == 32 && Pow2(7) == 128 && Pow2(9) == 512 && Pow2(11) == 2048;
  }

  lemma CutTop(v: nat, d: nat)
    requires d in {8, 16, 32, 64, 128, 256, 512, 1024, 2048, 4096} && v < d
    ensures Candidate(v + d) ==> Candidate(v)
  {
    assert d == 8 * (d / 8);
    CutBelow(v, d / 8);
    if d <= 128 { CutLow(v, d); } else { CutHigh(v, d); }
  }

  lemma CutBelow(v: nat, e: nat)
    ensures (v + 8 * e) % 2 == v % 2 && (v + 8 * e) / 2 % 4 == v / 2 % 4
  {
    assert (v + 8 * e) / 2 == v / 2 + 4 * e;
  }

  lemma CutLow(v: nat, d: nat)
    requires d in {8, 16, 32, 64, 128} && v < d
    ensures v / 8 % 32 <= 29 && v / 0x100 % 32 <= 29
  {
    assert v / 8 < 16;
  }

  lemma CutHigh(v: nat, d: nat)
    requires d in {256, 512, 1024, 2048, 4096} && v < d
    ensures (v + d) / 8 % 32 == v / 8 % 32 && v / 0x100 % 32 <= 29
  {
    assert d == 0x100 * (d / 0x100);
    CutFar(v, d / 0x100);
    assert v / 0x100 < 16;
  }

  lemma CutFar(v: nat, e: nat)
    ensures (v + 0x100 * e) / 8 % 32 == v / 8 % 32
  {
    assert (v + 0x100 * e) / 8 == v / 8 + 32 * e;
  }

  lemma {:induction false} ZeroSteps(n: nat)
    ensures NextStep(0, n) == n
    decreases n
  {
    if n > 0 { ZeroSteps(n - 1); }
  }

  // Trial decode

  /** `trial_decode`: n symbols, each looked up as the finder's bare tables do. */
  function TrialAt(lit: seq<nat>, dist: seq<nat>, input: seq<u8>, p: nat, n: nat): bool
    decreases n
  {
    if n == 0 then true
    else match LookupAt(lit, Simple, input, p)
      case Err(_) => false
      case Ok(e) =>
        var s := Hi(e);
        var q := p + lit[SymAt(lit, input, p)];
        if s < 256 then TrialAt(lit, dist, input, q, n - 1)
        else if s == 256 then true
        else if s > 285 then false
        else
          var q1 := q + LengthExtra(s);
          if q1 > 8 * |input| then false
          else match LookupAt(dist, Simple, input, q1)
            case Err(_) => false
            case Ok(d) =>
              var q2 := q1 + dist[SymAt(dist, input, q1)];
              Hi(d) < 30 && q2 + DistanceExtra(Hi(d)) <= 8 * |input|
              && TrialAt(lit, dist, input, q2 + DistanceExtra(Hi(d)), n - 1)
  }

  /** The first n symbols are well formed, or the block ends before. */
  ghost predicate GoodStart(lit: seq<nat>, dist: seq<nat>, input: seq<u8>, p: nat, n: nat)
    decreases n
  {
    n == 0 || match StepAt(lit, dist, input, p)
              case BadSymbol => false
              case EndOfBlock(q) => q <= 8 * |input|
              case Emit(_, q) => q <= 8 * |input| && GoodStart(lit, dist, input, q, n - 1)
  }

  lemma SimpleLookup(lengths: seq<nat>, input: seq<u8>, p: nat)
    requires ShortLengths(lengths) && |lengths| <= MAX_SYMBOLS
    ensures var r := LookupAt(lengths, Simple, input, p); var s := SymAt(lengths, input, p);
      r.Ok? ==> s >= 0 && Hi(r.value) == s && p + lengths[s] <= 8 * |input|
  {
    hide SymAt, Hi, EncodeEntry;
    var s := SymAt(lengths, input, p);
    if s >= 0 { SimpleEntry(s, lengths[s]); }
  }

  /** What starts like a real block passes the trial, when there is room for the lookups. */
  lemma {:induction false} GoodPasses(lit: seq<nat>, dist: seq<nat>, input: seq<u8>, p: nat, n: nat)
    requires ShortLengths(lit) && |lit| <= MAX_SYMBOLS && ShortLengths(dist) && |dist| <= MAX_SYMBOLS
    requires GoodStart(lit, dist, input, p, n) && p + 48 * n <= 8 * |input|
    ensures TrialAt(lit, dist, input, p, n)
    decreases n
  {
    hide LookupAt, SymAt, Hi, Val, LengthBase, DistanceBase, LengthExtra, DistanceExtra;
    if n > 0 {
      RoomyLookup(lit, input, p);
      StepShort(lit, dist, input, p);
      var s := SymAt(lit, input, p);
      var q := p + lit[s];
      TableFacts(s);
      if s < 256 {
        GoodPasses(lit, dist, input, q, n - 1);
      } else if s > 256 {
        var q1 := q + LengthExtra(s);
        RoomyLookup(dist, input, q1);
        var d := SymAt(dist, input, q1);
        TableFacts(d);
        GoodPasses(lit, dist, input, q1 + dist[d] + DistanceExtra(d), n - 1);
      }
    }
  }

  lemma RoomyLookup(lengths: seq<nat>, input: seq<u8>, p: nat)
    requires ShortLengths(lengths) && |lengths| <= MAX_SYMBOLS && p + 15 <= 8 * |input|
    ensures var r := LookupAt(lengths, Simple, input, p); var s := SymAt(lengths, input, p);
      (s >= 0 ==> r.Ok? && Hi(r.value) == s && lengths[s] <= 15)
  {
    hide SymAt, Hi, EncodeEntry;
    var s := SymAt(lengths, input, p);
    if s >= 0 { SimpleEntry(s, lengths[s]); }
  }

  /** What passes the trial starts like a real block. */
  lemma {:induction false} TrialIsGood(lit: seq<nat>, dist: seq<nat>, input: seq<u8>, p: nat, n: nat)
    requires ShortLengths(lit) && |lit| <= MAX_SYMBOLS && ShortLengths(dist) && |dist| <= MAX_SYMBOLS
    requires TrialAt(lit, dist, input, p, n)
    ensures GoodStart(lit, dist, input, p, n)
    decreases n
  {
    hide LookupAt, SymAt, Hi, Val, LengthBase, DistanceBase, LengthExtra, DistanceExtra;
    if n > 0 {
      SimpleLookup(lit, input, p);
      var s := SymAt(lit, input, p);
      var q := p + lit[s];
      if s < 256 {
        TrialIsGood(lit, dist, input, q, n - 1);
      } else if s > 256 {
        var q1 := q + LengthExtra(s);
        SimpleLookup(dist, input, q1);
        var d := SymAt(dist, input, q1);
        TrialIsGood(lit, dist, input, q1 + dist[d] + DistanceExtra(d), n - 1);
      }
    }
  }

  method TrialDecode(br: BitReader, lit: HuffmanDecoder, dist: HuffmanDecoder, n: nat) returns (ok: bool)
    requires br.Valid() && lit.Valid() && lit.encoding == Simple && dist.Valid() && dist.encoding == Simple
    modifies br
    ensures br.Valid() && ok == TrialAt(lit.lengths, dist.lengths, br.input, old(br.TellBit()), n)
  {
    hide Agrees, Val, LookupAt, SymAt, Hi, Fits, ShortLengths, ShortEntry, LongListed, LengthBase, DistanceBase,
      LengthExtra, DistanceExtra;
    var k := 0;
    while k < n
      invariant 0 <= k <= n && br.Valid() && lit.Valid() && dist.Valid()
      invariant TrialAt(lit.lengths, dist.lengths, br.input, br.TellBit(), n - k)
             == TrialAt(lit.lengths, dist.lengths, br.input, old(br.TellBit()), n)
    {
      var e := lit.Lookup(br);
      if e.Err? { return false; }
      var sym := Hi(e.value);
      if sym == 256 { return true; }
      if sym > 285 { return false; }
      if sym > 256 {
        TableFacts(sym);
        var extra := br.Read(LengthExtra(sym));
        if extra.Err? { return false; }
        var d := dist.Lookup(br);
        if d.Err? || Hi(d.value) >= 30 { return false; }
        TableFacts(Hi(d.value));
        var dextra := br.Read(DistanceExtra(Hi(d.value)));
        if dextra.Err? { return false; }
      }
      k := k + 1;
    }
    ok := true;
  }

  /** The header after the three block bits parses strictly, and what follows passes the trial. */
  ghost predicate Verified(data: seq<u8>, p: nat) {
    && p + 3 <= 8 * |data|
    && var h := HeaderAt(data, p + 3, true);
       h.Ok? && TrialAt(h.value.lit, h.value.dist, data, h.value.end, TRIAL_SYMBOLS)
  }

  method VerifyCandidate(br: BitReader, pos: nat) returns (ok: bool)
    requires br.Valid()
    modifies br
    ensures br.Valid() && ok == Verified(br.input, pos)
  {
    hide HeaderAt, TrialAt, Agrees, Val, Fits, ShortLengths, ShortEntry, LongListed;
    var seek := br.SeekToBit(pos);
    if seek.Err? { return false; }
    var bits := br.Read(3);
    if bits.Err? { return false; }
    var header, lit, dist := ReadDynamicHeader(br, true);
    if header.Err? { return false; }
    ok := TrialDecode(br, lit, dist, TRIAL_SYMBOLS);
  }

  lemma {:induction false} LongStepIsFull(w: nat, n: nat)
    requires w < Pow2(n) && NextStep(w, n) + 2 >= n
    ensures NextStep(w, n) == n
    decreases n
  {
    if n <= 2 {
      assert Pow2(0) == 1 && Pow2(1) == 2 && Pow2(2) == 4;
      SmallSteps(w, n);
    } else if !Candidate(w) {
      LongStepIsFull(w / 2, n - 1);
    }
  }

  lemma SmallSteps(w: nat, n: nat)
    requires n <= 2 && w < 4
    ensures NextStep(w, n) == n
  {
    assert !Candidate(w) && !Candidate(w / 2);
    if n == 2 { assert NextStep(w / 2, 1) == 1 + NextStep(w / 2 / 2, 0); }
  }

  /** The step from p, or one bit on when p looks like a start. */
  function Hop(data: seq<u8>, p: nat): (h: nat)
    ensures h > 0
  {
    var step := NextStep(Val(data, p, WINDOW_BITS), WINDOW_BITS);
    if step > 0 then step else 1
  }

  /** A scan from pos looks at q. */
  predicate Stops(data: seq<u8>, pos: nat, q: nat)
    decreases q - pos
  {
    pos == q || (pos < q && Stops(data, pos + Hop(data, pos), q))
  }

  /** A scan from pos makes a full jump from d bits before q. */
  predicate JumpsAt(data: seq<u8>, pos: nat, q: nat, d: nat) {
    q >= pos + d && Stops(data, pos, q - d) && NextStep(Val(data, q - d, WINDOW_BITS), WINDOW_BITS) == WINDOW_BITS
  }

  /** Of a full jump the last two bits are blind: there the window no longer shows the block type. */
  predicate JumpedOver(data: seq<u8>, pos: nat, q: nat) {
    JumpsAt(data, pos, q, 11) || JumpsAt(data, pos, q, 12)
  }

  /** A jump over a possible start is a full one, and goes over it at offset 11 or 12. */
  lemma JumpIsFull(data: seq<u8>, p: nat, q: nat)
    requires p <= q && Candidate(Val(data, q, WINDOW_BITS))
    ensures p < q < p + Hop(data, p) ==>
      (q == p + 11 || q == p + 12) && NextStep(Val(data, p, WINDOW_BITS), WINDOW_BITS) == WINDOW_BITS
  {
    hide Candidate, NextStep, Val;
    if p < q < p + Hop(data, p) {
      if q - p <= 10 { StepsMissNothing(data, p, WINDOW_BITS, q - p); }
      ValBound(data, p, WINDOW_BITS);
      LongStepIsFull(Val(data, p, WINDOW_BITS), WINDOW_BITS);
    }
  }

  /** A scan passes over a possible start exactly when it makes a full jump from 11 or 12 bits before it. */
  lemma {:induction false} PassedOverExactly(data: seq<u8>, pos: nat, q: nat)
    requires pos <= q && Candidate(Val(data, q, WINDOW_BITS))
    ensures !Stops(data, pos, q) <==> JumpedOver(data, pos, q)
    decreases q - pos
  {
    hide Candidate, NextStep, Val;
    if pos < q {
      var next := pos + Hop(data, pos);
      JumpIsFull(data, pos, q);
      JumpsOn(data, pos, q, 11);
      JumpsOn(data, pos, q, 12);
      if next <= q { PassedOverExactly(data, next, q); }
    }
  }

  /** A full jump comes at once or on the rest of the way. */
  lemma JumpsOn(data: seq<u8>, pos: nat, q: nat, d: nat)
    requires pos < q && 0 < d < WINDOW_BITS
    ensures var next := pos + Hop(data, pos);
      JumpsAt(data, pos, q, d) <==>
        (q == pos + d && NextStep(Val(data, pos, WINDOW_BITS), WINDOW_BITS) == WINDOW_BITS)
        || (next <= q && JumpsAt(data, next, q, d))
  {
    hide NextStep, Val;
    if q > pos + d && Stops(data, pos, q - d) { StopsInside(data, pos + Hop(data, pos), q - d); }
  }

  lemma StopsInside(data: seq<u8>, pos: nat, q: nat)
    requires Stops(data, pos, q)
    ensures pos <= q
  {
  }

  /** Going from pos by the steps, the first place that looks like a start and is verified. */
  ghost function FirstFound(data: seq<u8>, pos: nat, limit: nat): Option<nat>
    decreases limit - pos
  {
    if pos + WINDOW_BITS > limit then None
    else
      var step := NextStep(Val(data, pos, WINDOW_BITS), WINDOW_BITS);
      if step > 0 then FirstFound(data, pos + step, limit)
      else if Verified(data, pos) then Some(pos)
      else FirstFound(data, pos + 1, limit)
  }

  /** A verified start in the range. */
  ghost predicate IsStart(data: seq<u8>, pos: nat, limit: nat, q: nat) {
    pos <= q && q + WINDOW_BITS <= limit && Candidate(Val(data, q, WINDOW_BITS)) && Verified(data, q)
  }

  /** What is found is the first verified start among the places the scan looks at. */
  lemma {:induction false} FoundIsFirstStop(data: seq<u8>, pos: nat, limit: nat)
    ensures match FirstFound(data, pos, limit)
      case Some(r) =>
        IsStart(data, pos, limit, r) && Stops(data, pos, r)
        && forall q: nat | q < r && IsStart(data, pos, limit, q) :: !Stops(data, pos, q)
      case None => forall q: nat | IsStart(data, pos, limit, q) :: !Stops(data, pos, q)
    decreases limit - pos
  {
    hide Candidate, NextStep, Val, Verified;
    if pos + WINDOW_BITS <= limit {
      var w := Val(data, pos, WINDOW_BITS);
      if NextStep(w, WINDOW_BITS) == 0 { NoStep(w); } else { SomeStep(w); }
      if !IsStart(data, pos, limit, pos) {
        FoundIsFirstStop(data, pos + Hop(data, pos), limit);
      }
    }
  }

  /** Exactly what the finder misses: the verified starts its scan jumps over from 11 or 12 bits before, and
      no others. It finds the first one that is not jumped over, and nothing when all are. */
  lemma FoundIsFirst(data: seq<u8>, pos: nat, limit: nat)
    ensures forall q: nat :: FirstFound(data, pos, limit) == Some(q) <==>
      && IsStart(data, pos, limit, q) && !JumpedOver(data, pos, q)
      && forall e: nat | e < q && IsStart(data, pos, limit, e) :: JumpedOver(data, pos, e)
    ensures FirstFound(data, pos, limit) == None <==>
      forall q: nat | IsStart(data, pos, limit, q) :: JumpedOver(data, pos, q)
  {
    hide Candidate, Val, Verified, FirstFound, Stops, JumpedOver;
    FoundIsFirstStop(data, pos, limit);
    forall q: nat | IsStart(data, pos, limit, q) ensures Stops(data, pos, q) <==> !JumpedOver(data, pos, q) {
      PassedOverExactly(data, pos, q);
    }
  }

  /** The first verified start of the range is found if and only if it is not jumped over. */
  lemma FirstStartFound(data: seq<u8>, pos: nat, limit: nat, q: nat)
    requires IsStart(data, pos, limit, q) && forall e: nat | e < q :: !IsStart(data, pos, limit, e)
    ensures FirstFound(data, pos, limit) == Some(q) <==> !JumpedOver(data, pos, q)
  {
    hide IsStart, FirstFound, JumpedOver;
    FoundIsFirst(data, pos, limit);
  }

  /** The step from pos, by the table. */
  method StepFrom(probe: BitReader, pos: nat, steps: array<nat>) returns (step: nat)
    requires steps.Length == WINDOW_SIZE
    requires forall w: nat | w < WINDOW_SIZE :: steps[w] == NextStep(w, WINDOW_BITS)
    requires probe.Valid() && pos + WINDOW_BITS <= 8 * |probe.input|
    modifies probe
    ensures probe.Valid() && step == NextStep(Val(probe.input, pos, WINDOW_BITS), WINDOW_BITS)
  {
    hide Candidate, NextStep, Val, Agrees;
    var seek := probe.SeekToBit(pos);
    var window := probe.Peek(WINDOW_BITS);
    ValBound(probe.input, pos, WINDOW_BITS);
    WindowSize();
    step := steps[window.value];
  }

  /** `find_next_dynamic_block`: the first start it looks at that is verified. */
  method FindNextDynamicBlock(data: seq<u8>, from: nat, until: nat, steps: array<nat>) returns (r: Option<nat>)
    requires steps.Length == WINDOW_SIZE
    requires forall w: nat | w < WINDOW_SIZE :: steps[w] == NextStep(w, WINDOW_BITS)
    ensures r == FirstFound(data, from, if until < 8 * |data| then until else 8 * |data|)
  {
    hide Candidate, NextStep, Val, Verified, Agrees;
    var limit := if until < 8 * |data| then until else 8 * |data|;
    if from >= limit {
      return None;
    }
    var probe := new BitReader(data);
    var verify := new BitReader(data);
    var pos := from;
    while pos + WINDOW_BITS <= limit
      invariant probe.Valid() && verify.Valid() && probe.input == data && verify.input == data
      invariant forall w: nat | w < WINDOW_SIZE :: steps[w] == NextStep(w, WINDOW_BITS)
      invariant FirstFound(data, pos, limit) == FirstFound(data, from, limit)
    {
      var step := StepFrom(probe, pos, steps);
      if step == 0 {
        var ok := VerifyCandidate(verify, pos);
        if ok {
          return Some(pos);
        }
        pos := pos + 1;
      } else {
        pos := pos + step;
      }
    }
    r := None;
  }

  lemma WindowSize()
    ensures Pow2(WINDOW_BITS) == WINDOW_SIZE
  {
    CutPowers();
  }

  lemma SomeStep(w: nat)
    requires NextStep(w, WINDOW_BITS) > 0
    ensures !Candidate(w)
  {
  }

  lemma NoStep(w: nat)
    requires NextStep(w, WINDOW_BITS) == 0
    ensures Candidate(w)
  {
  }

  /** Whatever the finder returns parses as a block header in the decoder, from the same bit, with the
      same codes and end. */
  lemma FoundParses(data: seq<u8>, p: nat)
    requires Verified(data, p)
    ensures HeaderAt(data, p + 3, false) == HeaderAt(data, p + 3, true)
    ensures HeaderAt(data, p + 3, false).Ok?
    ensures var h := HeaderAt(data, p + 3, false).value; GoodStart(h.lit, h.dist, data, h.end, 64)
  {
    hide HeaderAt, TrialAt, GoodStart;
    StrictIsTolerant(data, p + 3);
    HeaderAdvances(data, p + 3, false);
    var h := HeaderAt(data, p + 3, false).value;
    TrialIsGood(h.lit, h.dist, data, h.end, TRIAL_SYMBOLS);
  }

  /** And what is a strict header with 64 well-formed symbols behind it is verified, wherever the input goes on
      for as many bits as so many symbols can have. */
  lemma StartsAreVerified(data: seq<u8>, p: nat)
    requires var h := HeaderAt(data, p + 3, true);
      && h.Ok? && h.value.end + 48 * 64 <= 8 * |data|
      && GoodStart(h.value.lit, h.value.dist, data, h.value.end, 64)
    ensures Verified(data, p)
  {
    hide HeaderAt, TrialAt, GoodStart;
    HeaderAdvances(data, p + 3, true);
    var h := HeaderAt(data, p + 3, true).value;
    GoodPasses(h.lit, h.dist, data, h.end, 64);
  }

  /** The boundaries after the finds: 0, and each find that lies past the boundary before. */
  function Boundaries(found: seq<Option<nat>>): (bs: seq<nat>)
    ensures |bs| > 0
  {
    if found == [] then [0]
    else
      var n := |found| - 1;
      var bs := Boundaries(found[..n]);
      if found[n].Some? && found[n].value > bs[|bs| - 1] then bs + [found[n].value] else bs
  }

  /** Some find is x, past 0 and past all finds before it. */
  ghost predicate Record(found: seq<Option<nat>>, k: nat, x: nat) {
    && k < |found| && found[k] == Some(x) && x > 0
    && forall j | 0 <= j < k && found[j].Some? :: found[j].value < x
  }

  ghost predicate IsRecord(found: seq<Option<nat>>, x: nat) {
    exists k: nat :: Record(found, k, x)
  }

  /** The boundaries increase strictly from 0, and no find lies past the last. */
  lemma {:induction false} BoundariesIncrease(found: seq<Option<nat>>)
    ensures var bs := Boundaries(found);
      && bs[0] == 0 && (forall i | 0 < i < |bs| :: bs[i - 1] < bs[i])
      && (forall k | 0 <= k < |found| && found[k].Some? :: found[k].value <= bs[|bs| - 1])
    decreases |found|
  {
    if found != [] {
      var n := |found| - 1;
      BoundariesIncrease(found[..n]);
      forall k | 0 <= k < n ensures found[k] == found[..n][k] { }
    }
  }

  /** The boundaries are 0 and exactly the finds past all finds before them. */
  lemma {:induction false} BoundariesAreRecords(found: seq<Option<nat>>, x: nat)
    ensures x in Boundaries(found) <==> x == 0 || IsRecord(found, x)
    decreases |found|
  {
    hide IsRecord;
    if found == [] {
      NoRecords(x);
    } else {
      var n := |found| - 1;
      BoundariesAreRecords(found[..n], x);
      RecordsGrow(found, n, x);
      LastRecord(found, n, x);
    }
  }

  lemma NoRecords(x: nat)
    ensures !IsRecord([], x)
  {
  }

  /** The last find is a record exactly when it lies past the boundaries before it. */
  lemma LastRecord(found: seq<Option<nat>>, n: nat, x: nat)
    requires n + 1 == |found|
    ensures var bs := Boundaries(found[..n]);
      Record(found, n, x) <==> found[n] == Some(x) && x > bs[|bs| - 1]
  {
    var before := found[..n];
    var bs := Boundaries(before);
    var last := bs[|bs| - 1];
    BoundariesIncrease(before);
    forall k | 0 <= k < n ensures found[k] == before[k] { }
    if Record(found, n, x) && last > 0 {
      assert last in bs;
      BoundariesAreFound(before, last);
    }
  }

  lemma {:induction false} BoundariesAreFound(found: seq<Option<nat>>, x: nat)
    requires x in Boundaries(found) && x > 0
    ensures Some(x) in found
    decreases |found|
  {
    if found != [] {
      var n := |found| - 1;
      if x in Boundaries(found[..n]) { BoundariesAreFound(found[..n], x); }
    }
  }

  lemma RecordsGrow(found: seq<Option<nat>>, n: nat, x: nat)
    requires n + 1 == |found|
    ensures IsRecord(found, x) <==> IsRecord(found[..n], x) || Record(found, n, x)
  {
    if k: nat :| Record(found, k, x) {
      if k < n { assert Record(found[..n], k, x); }
    }
    if k: nat :| Record(found[..n], k, x) {
      assert Record(found, k, x);
    }
  }

  /** The work items from the finder's answers: one for each boundary, whose hint is the next boundary; the
      last one has no hint, given as a number past every position. */
  method BuildWorkItems(found: seq<Option<nat>>, noHint: nat) returns (starts: seq<nat>, hints: seq<nat>)
    ensures starts == Boundaries(found) && |hints| == |starts| && hints[|hints| - 1] == noHint
    ensures forall i | 0 <= i < |hints| - 1 :: hints[i] == starts[i + 1]
  {
    starts := [0];
    for k := 0 to |found|
      invariant starts == Boundaries(found[..k])
    {
      assert found[..k + 1][..k] == found[..k];
      if found[k].Some? && found[k].value > starts[|starts| - 1] {
        starts := starts + [found[k].value];
      }
    }
    assert found[..|found|] == found;
    hints := starts[1..] + [noHint];
  }
}
