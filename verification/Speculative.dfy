/** The chunk a worker hands on: bytes with placeholders, and the list of markers that says which
    of them wait for the bytes before the chunk (deflate/speculative.rs). */
module Speculative {
  import opened Words
  import opened BitStream
  import opened Tables
  import opened Lz77

  /** High bit of a 16-bit window cell: the cell refers to the prefix. */
  const MARKER16: nat := 0x8000

  /** Output positions are kept in 32 bits. */
  const POS_LIMIT: nat := 0x1_0000_0000

  datatype Marker = Marker(outPos: nat, prefixOffset: nat)

  /** What a 16-bit cell means. */
  function DecodeCell(c: u16): Cell {
    if c >= MARKER16 then Mark(c - MARKER16) else Byte(c % 0x100)
  }

  function EncodeCell(c: Cell): u16
    requires CellReaches(c, MAX_DISTANCE)
  {
    match c
    case Byte(b) => b
    case Mark(off) => MARKER16 + off
  }

  lemma CellRoundTrip(c: Cell)
    requires CellReaches(c, MAX_DISTANCE)
    ensures DecodeCell(EncodeCell(c)) == c
  {
  }

  /** The masks the code uses on a cell: the marker flag, its low fifteen bits, and the or that builds
      a marker. */
  lemma CellMasks(c: u16, off: nat)
    requires off < MARKER16
    ensures And(c, MARKER16) != 0 <==> c >= MARKER16
    ensures c >= MARKER16 ==> Low(c, 15) == c - MARKER16
    ensures Or(MARKER16, off) == MARKER16 + off
  {
    hide And, Or, Low;
    var k := 15;
    PowFifteen();
    TopBitAnd(c % MARKER16, c / MARKER16, k);
    TopBitLow(c % MARKER16, c / MARKER16, k);
    TopBitLow(0, 1, k);
    LowZero(k);
    OrDisjoint(Pow2(k), off, k);
  }

  lemma PowFifteen()
    ensures Pow2(15) == MARKER16
  {
    assert Pow2(5) == 32 && Pow2(10) == 32 * Pow2(5) by { assert Pow2(7) == 4 * Pow2(5); }
    assert Pow2(12) == 4096 && Pow2(14) == 16384;
  }

  lemma {:induction false} LowZero(n: nat)
    ensures Low(0, n) == 0
  {
    if n > 0 { LowZero(n - 1); }
  }

  lemma {:induction false} TopBitAnd(x: nat, t: nat, k: nat)
    requires x < Pow2(k) && t <= 1
    ensures And(x + t * Pow2(k), Pow2(k)) == t * Pow2(k)
  {
    if k > 0 {
      assert (x + t * Pow2(k)) / 2 == x / 2 + t * Pow2(k - 1);
      assert Pow2(k) / 2 == Pow2(k - 1);
      TopBitAnd(x / 2, t, k - 1);
    }
  }

  lemma {:induction false} TopBitLow(x: nat, t: nat, k: nat)
    requires x < Pow2(k) && t <= 1
    ensures Low(x + t * Pow2(k), k) == x
  {
    if k > 0 {
      assert (x + t * Pow2(k)) / 2 == x / 2 + t * Pow2(k - 1);
      TopBitLow(x / 2, t, k - 1);
    }
  }

  function DecodeCells(s: seq<u16>): (r: seq<Cell>)
    ensures |r| == |s|
    ensures forall i | 0 <= i < |s| :: r[i] == DecodeCell(s[i])
  {
    seq(|s|, i requires 0 <= i < |s| => DecodeCell(s[i]))
  }

  /** The byte stored for a cell: a marker's placeholder is 0. */
  function LowByte(c: Cell): u8 {
    if c.Byte? then c.b else 0
  }

  function Lower(cells: seq<Cell>): (r: seq<u8>)
    ensures |r| == |cells|
    ensures forall i | 0 <= i < |cells| :: r[i] == LowByte(cells[i])
  {
    seq(|cells|, i requires 0 <= i < |cells| => LowByte(cells[i]))
  }

  lemma LowerLength(cells: seq<Cell>)
    ensures |Lower(cells)| == |cells|
  {
  }

  /** One marker per prefix-referencing cell, in order; its position is cut to 32 bits. */
  function MarksOf(cells: seq<Cell>): (ms: seq<Marker>)
    ensures |ms| <= |cells|
    ensures forall j | 0 <= j < |ms| :: ms[j].outPos < |cells|
  {
    if cells == [] then []
    else
      var n := |cells| - 1;
      MarksOf(cells[..n]) + (if cells[n].Mark? then [Marker(n % POS_LIMIT, cells[n].off)] else [])
  }

  lemma {:induction false} MarksOfBytes(cells: seq<Cell>, more: seq<Cell>)
    requires forall i | 0 <= i < |more| :: more[i].Byte?
    ensures MarksOf(cells + more) == MarksOf(cells)
  {
    if more == [] {
      assert cells + more == cells;
    } else {
      var n := |more| - 1;
      assert (cells + more)[..|cells| + n] == cells + more[..n];
      MarksOfBytes(cells, more[..n]);
    }
  }

  /** No marked cell lies beyond the positions 32 bits can name. */
  ghost predicate MarksFit(cells: seq<Cell>) {
    forall i | POS_LIMIT <= i < |cells| :: cells[i].Byte?
  }

  /** A chunk of up to 2^32 cells has no mark beyond: positions go up to 2^32 - 1. */
  lemma FourGigabytesFit(cells: seq<Cell>)
    requires |cells| <= 4294967296
    ensures MarksFit(cells)
  {
  }

  /** The markers are exactly the marked cells, in increasing order. */
  ghost predicate MarksFor(cells: seq<Cell>, ms: seq<Marker>) {
    && (forall j | 0 <= j < |ms| :: ms[j].outPos < |cells| && cells[ms[j].outPos] == Mark(ms[j].prefixOffset))
    && (forall j, k | 0 <= j < k < |ms| :: ms[j].outPos < ms[k].outPos)
    && (forall i | 0 <= i < |cells| && cells[i].Mark? :: Marker(i, cells[i].off) in ms)
  }

  /** While marks keep to positions of 32 bits, the list is complete. */
  lemma {:induction false} MarksComplete(cells: seq<Cell>)
    requires MarksFit(cells)
    ensures MarksFor(cells, MarksOf(cells))
  {
    if cells != [] {
      var n := |cells| - 1;
      MarksComplete(cells[..n]);
      forall i | 0 <= i < |cells| && cells[i].Mark? ensures Marker(i, cells[i].off) in MarksOf(cells) {
        if i < n { assert cells[..n][i] == cells[i]; }
      }
    }
  }

  /** `resolve_markers`: overwrite each marked position from the tail, giving up at the first marker
      the tail does not reach. */
  function PatchAll(bytes: seq<u8>, ms: seq<Marker>, tail: seq<u8>): Option<seq<u8>>
    requires forall j | 0 <= j < |ms| :: ms[j].outPos < |bytes|
    decreases |ms|
  {
    if ms == [] then Some(bytes)
    else if ms[0].prefixOffset >= |tail| then None
    else PatchAll(bytes[ms[0].outPos := tail[|tail| - 1 - ms[0].prefixOffset]], ms[1..], tail)
  }

  lemma {:induction false} PatchAllAppend(bytes: seq<u8>, ms: seq<Marker>, m: Marker, tail: seq<u8>)
    requires forall j | 0 <= j < |ms| :: ms[j].outPos < |bytes|
    requires m.outPos < |bytes|
    ensures var r := PatchAll(bytes, ms, tail);
      && (r.Some? ==> |r.value| == |bytes|)
      && PatchAll(bytes, ms + [m], tail) ==
        if r.None? || m.prefixOffset >= |tail| then None
        else Some(r.value[m.outPos := tail[|tail| - 1 - m.prefixOffset]])
    decreases |ms|
  {
    if ms == [] {
      assert ms + [m] == [m];
      assert PatchAll(bytes, [m], tail) == if m.prefixOffset >= |tail| then None
        else PatchAll(bytes[m.outPos := tail[|tail| - 1 - m.prefixOffset]], [m][1..], tail);
    } else {
      assert (ms + [m])[1..] == ms[1..] + [m];
      if ms[0].prefixOffset < |tail| {
        PatchAllAppend(bytes[ms[0].outPos := tail[|tail| - 1 - ms[0].prefixOffset]], ms[1..], m, tail);
      }
    }
  }

  /** The first k cells resolved, the others still lowered. */
  ghost predicate Patched(cells: seq<Cell>, k: nat, tail: seq<u8>, r: seq<u8>) {
    && |r| == |cells|
    && forall i | 0 <= i < |cells| ::
        if i < k then CellReaches(cells[i], |tail|) && r[i] == Patch(cells[i], tail)
        else r[i] == LowByte(cells[i])
  }

  lemma PatchedStep(cells: seq<Cell>, k: nat, tail: seq<u8>, r: seq<u8>)
    requires k < |cells| && Patched(cells, k, tail, r) && CellReaches(cells[k], |tail|)
    ensures Patched(cells, k + 1, tail, if cells[k].Mark? then r[k := Patch(cells[k], tail)] else r)
  {
  }

  lemma MarksOfStep(cells: seq<Cell>, k: nat)
    requires k < |cells|
    ensures MarksOf(cells[..k + 1]) == MarksOf(cells[..k]) +
      (if cells[k].Mark? then [Marker(k % POS_LIMIT, cells[k].off)] else [])
    ensures forall j | 0 <= j < |MarksOf(cells[..k])| :: MarksOf(cells[..k])[j].outPos < |cells|
  {
    assert cells[..k + 1][..k] == cells[..k];
  }

  /** Patching with the markers of the first k cells resolves exactly those. */
  lemma {:induction false} PatchPrefix(cells: seq<Cell>, k: nat, tail: seq<u8>)
    requires k <= |cells| && k <= POS_LIMIT
    ensures forall j | 0 <= j < |MarksOf(cells[..k])| :: MarksOf(cells[..k])[j].outPos < |cells|
    ensures var r := PatchAll(Lower(cells), MarksOf(cells[..k]), tail);
      && (r.Some? <==> Resolvable(cells[..k], |tail|))
      && (r.Some? ==> Patched(cells, k, tail, r.value))
    decreases k
  {
    hide PatchAll, Patched, MarksOf, Resolvable;
    if k == 0 {
      PatchNone(cells, tail);
    } else {
      var pre, c := cells[..k - 1], cells[k - 1];
      PatchPrefix(cells, k - 1, tail);
      MarksOfStep(cells, k - 1);
      assert cells[..k] == pre + [c];
      ResolvableSplit(pre, [c], |tail|);
      ResolvableOne(c, |tail|);
      var r := PatchAll(Lower(cells), MarksOf(pre), tail);
      if c.Mark? {
        PatchAllAppend(Lower(cells), MarksOf(pre), Marker(k - 1, c.off), tail);
      } else {
        assert MarksOf(cells[..k]) == MarksOf(pre);
      }
      if r.Some? && CellReaches(c, |tail|) { PatchedStep(cells, k - 1, tail, r.value); }
    }
  }

  lemma ResolvableOne(c: Cell, n: nat)
    ensures Resolvable([c], n) <==> CellReaches(c, n)
  {
    assert [c][0] == c;
  }

  lemma PatchNone(cells: seq<Cell>, tail: seq<u8>)
    ensures MarksOf(cells[..0]) == [] && Resolvable(cells[..0], |tail|)
    ensures PatchAll(Lower(cells), [], tail) == Some(Lower(cells))
    ensures Patched(cells, 0, tail, Lower(cells))
  {
  }

  lemma {:induction false} PatchKeeps(bytes: seq<u8>, ms: seq<Marker>, tail: seq<u8>, i: nat)
    requires forall j | 0 <= j < |ms| :: ms[j].outPos < |bytes| && ms[j].outPos != i
    requires i < |bytes|
    ensures var r := PatchAll(bytes, ms, tail); r.Some? ==> |r.value| == |bytes| && r.value[i] == bytes[i]
    decreases |ms|
  {
    if ms != [] && ms[0].prefixOffset < |tail| {
      PatchKeeps(bytes[ms[0].outPos := tail[|tail| - 1 - ms[0].prefixOffset]], ms[1..], tail, i);
    }
  }

  lemma {:induction false} MarksBelowLimit(cells: seq<Cell>)
    ensures forall j | 0 <= j < |MarksOf(cells)| :: MarksOf(cells)[j].outPos < POS_LIMIT
  {
    if cells != [] { MarksBelowLimit(cells[..|cells| - 1]); }
  }

  lemma {:induction false} MarksOfFits(cells: seq<Cell>, k: nat)
    requires k <= |cells| && forall i | k <= i < |cells| :: cells[i].Byte?
    ensures MarksOf(cells) == MarksOf(cells[..k])
  {
    assert cells == cells[..k] + cells[k..];
    MarksOfBytes(cells[..k], cells[k..]);
  }

  /** Lowering a chunk to bytes and markers and resolving it later is resolving its cells. */
  lemma LoweredResolves(cells: seq<Cell>, tail: seq<u8>)
    requires MarksFit(cells)
    ensures PatchAll(Lower(cells), MarksOf(cells), tail) ==
      if Resolvable(cells, |tail|) then Some(Resolved(cells, tail)) else None
  {
    var k := if |cells| <= POS_LIMIT then |cells| else POS_LIMIT;
    MarksOfFits(cells, k);
    PatchPrefix(cells, k, tail);
    if Resolvable(cells, |tail|) { ResolvablePrefix(cells, k, |tail|); }
    if Resolvable(cells[..k], |tail|) {
      forall i | 0 <= i < |cells| ensures CellReaches(cells[i], |tail|) {
        if i < k { assert cells[..k][i] == cells[i]; }
      }
    }
    var r := PatchAll(Lower(cells), MarksOf(cells), tail);
    if r.Some? { assert r.value == Resolved(cells, tail); }
  }

  /** Keeping positions in 32 bits is harmless exactly for the chunks whose marks lie below 2^32:
      for any other chunk a full window exists with which the marker list resolves to wrong bytes. */
  lemma PositionsMustFit(cells: seq<Cell>)
    requires InWindow(cells)
    ensures MarksFit(cells) <==>
      forall tail: seq<u8> | |tail| == MAX_DISTANCE ::
        PatchAll(Lower(cells), MarksOf(cells), tail) == Some(Resolved(cells, tail))
  {
    if MarksFit(cells) {
      forall tail: seq<u8> | |tail| == MAX_DISTANCE
        ensures PatchAll(Lower(cells), MarksOf(cells), tail) == Some(Resolved(cells, tail))
      {
        LoweredResolves(cells, tail);
      }
    } else {
      var i :| POS_LIMIT <= i < |cells| && cells[i].Mark?;
      var ones: seq<u8> := seq(MAX_DISTANCE, _ => 1);
      MarksBelowLimit(cells);
      PatchKeeps(Lower(cells), MarksOf(cells), ones, i);
      assert Patch(cells[i], ones) == 1;
    }
  }

  /** n matches of the greatest length that repeat the byte before them. */
  function LongRun(n: nat): (ts: seq<Token>)
    ensures |ts| == n
  {
    seq(n, _ => Copy(MAX_LENGTH, 1))
  }

  function Marked(n: nat): (cells: seq<Cell>)
    ensures |cells| == n
  {
    seq(n, _ => Mark(0))
  }

  lemma {:induction false} RunCopies(m: nat, n: nat)
    ensures BlindCopy(Marked(m), 1, n) == Marked(m + n)
    decreases n
  {
    if n > 0 {
      assert Marked(m) + [BlindSource(Marked(m), 1)] == Marked(m + 1);
      RunCopies(m + 1, n - 1);
    }
  }

  lemma {:induction false} RunIsMarked(m: nat, n: nat)
    ensures Blind(Marked(m), LongRun(n)) == Marked(m + MAX_LENGTH * n)
    decreases n
  {
    if n > 0 {
      RunCopies(m, MAX_LENGTH);
      assert LongRun(n)[1..] == LongRun(n - 1);
      RunIsMarked(m + MAX_LENGTH, n - 1);
    }
  }

  /** What the marker list makes of a chunk behind the output `h`. */
  function Repaired(cells: seq<Cell>, h: seq<u8>): Option<seq<u8>> {
    match PatchAll(Lower(cells), MarksOf(cells), h)
    case None => None
    case Some(bytes) => Some(h + bytes)
  }

  /** Blocks that reach the limit exist: a chunk that begins with a long enough run of one byte is marked
      throughout, and behind some output its marker list resolves it to other bytes than the run's. */
  lemma LongRunsDoNotFit(n: nat)
    requires 258 * n > 4294967296
    ensures ValidTokens(LongRun(n)) && !MarksFit(Blind([], LongRun(n)))
    ensures exists h: seq<u8> | |h| == MAX_DISTANCE ::
      Apply(h, LongRun(n)).Some? && Repaired(Blind([], LongRun(n)), h) != Apply(h, LongRun(n))
  {
    hide PatchAll, MarksOf, Blind, Lower, Apply;
    var ts := LongRun(n);
    var cells := Blind([], ts);
    assert Marked(0) == [];
    RunIsMarked(0, n);
    assert cells[POS_LIMIT].Mark?;
    BlindInWindow([], ts);
    PositionsMustFit(cells);
    var h: seq<u8> :| |h| == MAX_DISTANCE && PatchAll(Lower(cells), MarksOf(cells), h) != Some(Resolved(cells, h));
    SpeculationIsSound(ts, h);
    RepairedIs(cells, h);
  }

  lemma RepairedIs(cells: seq<Cell>, h: seq<u8>)
    requires InWindow(cells) && |h| == MAX_DISTANCE
    ensures Repaired(cells, h) == Some(h + Resolved(cells, h)) <==>
      PatchAll(Lower(cells), MarksOf(cells), h) == Some(Resolved(cells, h))
  {
    hide MarksOf, Lower;
    var r := PatchAll(Lower(cells), MarksOf(cells), h);
    if r.Some? && h + r.value == h + Resolved(cells, h) {
      assert r.value == (h + r.value)[|h|..] == (h + Resolved(cells, h))[|h|..];
    }
  }

  class SpeculativeChunk {
    var bytes: seq<u8>
    var markers: seq<Marker>
    ghost var cells: seq<Cell>

    ghost predicate Valid()
      reads this
    {
      bytes == Lower(cells) && markers == MarksOf(cells)
    }

    constructor ()
      ensures Valid() && cells == [] && bytes == []
    {
      bytes, markers, cells := [], [], [];
      new;
      assert bytes == Lower(cells);
    }

    /** The byte decoder's output replaces the buffer it extended; only plain bytes were added. */
    method Extend(out: seq<u8>, ghost longer: seq<Cell>)
      requires Valid() && |cells| <= |longer| && longer[..|cells|] == cells
      requires forall i | |cells| <= i < |longer| :: longer[i].Byte?
      requires out == Lower(longer)
      modifies this
      ensures Valid() && cells == longer
    {
      assert longer == cells + longer[|cells|..];
      MarksOfBytes(cells, longer[|cells|..]);
      bytes := out;
      cells := longer;
    }

    /** `extract_from_u16`: first narrow every cell to its low byte, then record the markers, setting
        their placeholder to 0. */
    method ExtractFromU16(scratch: array<u16>, n: nat)
      requires Valid() && n <= scratch.Length
      modifies this
      ensures Valid()
      ensures cells == old(cells) + DecodeCells(scratch[..n])
    {
      hide MarksOf;
      var base := |bytes|;
      var narrow := Narrow(scratch, n);
      cells := cells + DecodeCells(scratch[..n]);
      bytes := bytes + narrow;
      assert cells[..base] == old(cells);
      var idx := 0;
      while idx < n
        invariant 0 <= idx <= n && |cells| == base + n
        invariant cells == old(cells) + DecodeCells(scratch[..n])
        invariant Recorded(cells, bytes, markers, base + idx)
      {
        var cell := scratch[idx];
        assert cells[base + idx] == DecodeCell(cell);
        RecordStep(cells, bytes, markers, base + idx);
        if cell >= MARKER16 {
          markers := markers + [Marker((base + idx) % POS_LIMIT, cell - MARKER16)];
          bytes := bytes[base + idx := 0];
        }
        idx := idx + 1;
      }
      assert cells[..base + n] == cells;
      assert bytes == Lower(cells);
    }

    method Narrow(scratch: array<u16>, n: nat) returns (r: seq<u8>)
      requires n <= scratch.Length
      ensures |r| == n && forall i | 0 <= i < n :: r[i] == scratch[i] % 0x100
    {
      r := [];
      var i := 0;
      while i < n
        invariant 0 <= i <= n && |r| == i
        invariant forall j | 0 <= j < i :: r[j] == scratch[j] % 0x100
      {
        r := r + [scratch[i] % 0x100];
        i := i + 1;
      }
    }

    /** Fill the placeholders in place; the markers are used up. An unreachable marker is an error. */
    method ResolveMarkers(prevTail: seq<u8>) returns (r: Result<()>)
      requires Valid()
      modifies this
      ensures cells == old(cells)
      ensures r == (if PatchAll(old(bytes), old(markers), prevTail).Some? then Ok(()) else Err(Invalid))
      ensures r.Ok? ==> Some(bytes) == PatchAll(old(bytes), old(markers), prevTail) && markers == []
    {
      var k := 0;
      while k < |markers|
        invariant 0 <= k <= |markers| && markers == old(markers) && cells == old(cells)
        invariant |bytes| == |old(bytes)|
        invariant PatchAll(bytes, markers[k..], prevTail) == PatchAll(old(bytes), markers, prevTail)
      {
        var m := markers[k];
        assert markers[k..][0] == m && markers[k..][1..] == markers[k + 1..];
        if m.prefixOffset >= |prevTail| {
          return Err(Invalid);
        }
        bytes := bytes[m.outPos := prevTail[|prevTail| - 1 - m.prefixOffset]];
        k := k + 1;
      }
      assert markers[k..] == [];
      markers := [];
      r := Ok(());
    }

    /** `build_prev_tail_fast`: resolve only what falls into the last 32 KiB of the chunk, and carry
        the end of the previous tail in front when the chunk is shorter than that. */
    method BuildPrevTail(prevTail: seq<u8>) returns (tail: seq<u8>)
      requires Valid() && MarksFit(cells)
      ensures |prevTail| <= MAX_DISTANCE && Resolvable(cells, |prevTail|) ==>
        tail == Tail(prevTail + Resolved(cells, prevTail))
    {
      hide MarksOf, Tail, Resolvable;
      var len := |bytes|;
      var newTail := ResolveTail(prevTail, if len < MAX_DISTANCE then 0 else len - MAX_DISTANCE);
      if len < MAX_DISTANCE && prevTail != [] {
        var need := MAX_DISTANCE - len;
        var carry := prevTail[if |prevTail| < need then 0 else |prevTail| - need..];
        if |prevTail| <= MAX_DISTANCE && Resolvable(cells, |prevTail|) {
          TailCarry(prevTail, Resolved(cells, prevTail));
        }
        return carry + newTail;
      }
      if |prevTail| <= MAX_DISTANCE && Resolvable(cells, |prevTail|) { TailCarry(prevTail, Resolved(cells, prevTail)); }
      tail := newTail;
    }

    /** The chunk's bytes from `tailStart` on, resolved by the markers that fall there. */
    method ResolveTail(prevTail: seq<u8>, tailStart: nat) returns (newTail: seq<u8>)
      requires Valid() && MarksFit(cells) && tailStart <= |cells|
      ensures |newTail| == |cells| - tailStart
      ensures Resolvable(cells, |prevTail|) ==> newTail == Resolved(cells, prevTail)[tailStart..]
    {
      hide MarksFor, MarksFit, MarksOf, TailPatched, Resolvable, Resolved;
      MarksComplete(cells);
      MarksInside(cells, markers);
      var k := PartitionPoint(tailStart);
      newTail := bytes[tailStart..];
      TailStart(cells, markers, tailStart, k);
      while k < |markers| && markers[k].outPos < tailStart + |newTail|
        invariant k <= |markers| && |newTail| == |cells| - tailStart
        invariant TailPatched(cells, prevTail, tailStart, newTail, NextPos(cells, markers, k))
        invariant forall j | k <= j < |markers| :: markers[j].outPos >= tailStart
      {
        TailStep(cells, markers, k, prevTail, tailStart, newTail);
        var m := markers[k];
        if m.prefixOffset < |prevTail| {
          newTail := newTail[m.outPos - tailStart := prevTail[|prevTail| - 1 - m.prefixOffset]];
        }
        k := k + 1;
      }
      if Resolvable(cells, |prevTail|) { TailDone(cells, prevTail, tailStart, newTail); }
    }

    /** The first marker at or after `pos`. */
    method PartitionPoint(pos: nat) returns (k: nat)
      requires MarksFor(cells, markers)
      ensures k <= |markers|
      ensures forall j | 0 <= j < k :: markers[j].outPos < pos
      ensures forall j | k <= j < |markers| :: markers[j].outPos >= pos
    {
      k := 0;
      while k < |markers| && markers[k].outPos < pos
        invariant k <= |markers|
        invariant forall j | 0 <= j < k :: markers[j].outPos < pos
      {
        k := k + 1;
      }
    }
  }

  /** The end of a short chunk with the end of the previous tail in front is the new tail. */
  lemma TailCarry(prev: seq<u8>, out: seq<u8>)
    requires |prev| <= MAX_DISTANCE
    ensures Tail(prev + out) ==
      if |out| < MAX_DISTANCE && prev != []
      then prev[if |prev| < MAX_DISTANCE - |out| then 0 else |prev| - (MAX_DISTANCE - |out|)..] + out
      else out[if |out| < MAX_DISTANCE then 0 else |out| - MAX_DISTANCE..]
  {
  }

  /** Bytes narrowed, and the markers of the first k cells recorded. */
  ghost predicate Recorded(all: seq<Cell>, bytes: seq<u8>, markers: seq<Marker>, k: nat) {
    && k <= |all| == |bytes|
    && markers == MarksOf(all[..k])
    && forall i | 0 <= i < |all| && (all[i].Byte? || i < k) :: bytes[i] == LowByte(all[i])
  }

  lemma RecordStep(all: seq<Cell>, bytes: seq<u8>, markers: seq<Marker>, k: nat)
    requires k < |all| && Recorded(all, bytes, markers, k)
    ensures if all[k].Mark?
            then Recorded(all, bytes[k := 0], markers + [Marker(k % POS_LIMIT, all[k].off)], k + 1)
            else Recorded(all, bytes, markers, k + 1)
  {
    hide MarksOf;
    MarksOfStep(all, k);
  }

  /** Where the k-th marker stands; the chunk's end after the last one. */
  function NextPos(cells: seq<Cell>, ms: seq<Marker>, k: nat): nat {
    if k < |ms| then ms[k].outPos else |cells|
  }

  /** The tail with its marks before `pos` patched, as far as `prevTail` reaches. */
  ghost predicate TailPatched(cells: seq<Cell>, prevTail: seq<u8>, tailStart: nat, newTail: seq<u8>, pos: nat)
  {
    && tailStart <= |cells| && |newTail| == |cells| - tailStart
    && forall i | tailStart <= i < |cells| :: newTail[i - tailStart] ==
        if i < pos && CellReaches(cells[i], |prevTail|) then Patch(cells[i], prevTail) else LowByte(cells[i])
  }

  lemma TailStart(cells: seq<Cell>, ms: seq<Marker>, tailStart: nat, k: nat)
    requires MarksFor(cells, ms) && tailStart <= |cells| && k <= |ms|
    requires forall j | 0 <= j < k :: ms[j].outPos < tailStart
    ensures forall prevTail :: TailPatched(cells, prevTail, tailStart, Lower(cells)[tailStart..], NextPos(cells, ms, k))
  {
    forall i | 0 <= i < |cells| && cells[i].Mark? ensures i < tailStart || i >= NextPos(cells, ms, k) {
      var j := MarkListed(cells, ms, i);
      if j < k { } else { }
    }
  }

  lemma MarkListed(cells: seq<Cell>, ms: seq<Marker>, i: nat) returns (j: nat)
    requires MarksFor(cells, ms) && i < |cells| && cells[i].Mark?
    ensures j < |ms| && ms[j].outPos == i
    ensures forall l | 0 <= l < |ms| :: if l < j then ms[l].outPos < i else if l > j then ms[l].outPos > i else true
  {
    j :| 0 <= j < |ms| && ms[j] == Marker(i, cells[i].off);
  }

  lemma TailStep(cells: seq<Cell>, ms: seq<Marker>, k: nat, prevTail: seq<u8>, tailStart: nat, newTail: seq<u8>)
    requires MarksFor(cells, ms) && k < |ms| && ms[k].outPos >= tailStart
    requires TailPatched(cells, prevTail, tailStart, newTail, NextPos(cells, ms, k))
    ensures ms[k].outPos < |cells|
    ensures TailPatched(cells, prevTail, tailStart,
      if ms[k].prefixOffset < |prevTail|
      then newTail[ms[k].outPos - tailStart := prevTail[|prevTail| - 1 - ms[k].prefixOffset]] else newTail,
      NextPos(cells, ms, k + 1))
  {
    forall i | 0 <= i < |cells| && cells[i].Mark? ensures i <= ms[k].outPos || i >= NextPos(cells, ms, k + 1) {
      var j := MarkListed(cells, ms, i);
      if j <= k { } else { }
    }
  }

  lemma MarksInside(cells: seq<Cell>, ms: seq<Marker>)
    requires MarksFor(cells, ms)
    ensures forall j | 0 <= j < |ms| :: ms[j].outPos < |cells|
  {
  }

  lemma TailDone(cells: seq<Cell>, prevTail: seq<u8>, tailStart: nat, newTail: seq<u8>)
    requires Resolvable(cells, |prevTail|) && TailPatched(cells, prevTail, tailStart, newTail, |cells|)
    ensures newTail == Resolved(cells, prevTail)[tailStart..]
  {
    forall i | tailStart <= i < |cells| ensures newTail[i - tailStart] == Resolved(cells, prevTail)[i] {
      assert CellReaches(cells[i], |prevTail|);
    }
  }
}
