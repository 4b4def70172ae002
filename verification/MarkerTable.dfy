/** The side-table form of speculative decoding (deflate/inflate/speculative.rs): plain bytes, and a
    sorted list of markers that back-references extend as they go. It computes what the dense 16-bit
    cells compute. */
module MarkerTable {
  import opened Words
  import opened BitStream
  import opened Tables
  import opened Lz77
  import opened Speculative
  import opened SpeculativeDecode
  import opened CopyKernels

  /** Position of the last marker. */
  function MaxOf(ms: seq<Marker>): Option<nat> {
    if ms == [] then None else Some(ms[|ms| - 1].outPos)
  }

  /** A marker that no back-reference can reach from a write head at n. */
  ghost predicate Retired(ms: seq<Marker>, live: nat, n: nat) {
    live <= |ms| && forall j | 0 <= j < live :: ms[j].outPos + MAX_DISTANCE < n
  }

  /** All markers before `cursor` lie before `pos`. */
  ghost predicate Below(ms: seq<Marker>, cursor: nat, pos: nat) {
    cursor <= |ms| && forall j | 0 <= j < cursor :: ms[j].outPos < pos
  }

  /** `cursor` separates the markers before `pos` from the others. */
  ghost predicate Separates(ms: seq<Marker>, cursor: nat, pos: nat) {
    && cursor <= |ms|
    && (forall j | 0 <= j < cursor :: ms[j].outPos < pos)
    && (forall j | cursor <= j < |ms| :: ms[j].outPos >= pos)
  }

  /** With the markers separated at `pos`, the one at the cursor tells whether that cell is marked. */
  lemma MarkedAt(cells: seq<Cell>, ms: seq<Marker>, cursor: nat, pos: nat)
    requires MarksFor(cells, ms) && Separates(ms, cursor, pos) && pos < |cells|
    ensures cells[pos].Mark? <==> cursor < |ms| && ms[cursor].outPos == pos
    ensures cells[pos].Mark? ==> cells[pos] == Mark(ms[cursor].prefixOffset)
  {
    if cells[pos].Mark? { var j := MarkListed(cells, ms, pos); }
  }

  /** Behind the last marker there are only bytes. */
  lemma BytesBehind(cells: seq<Cell>, ms: seq<Marker>, pos: nat)
    requires MarksFor(cells, ms) && (ms == [] || pos > MaxOf(ms).value)
    ensures BytesFrom(cells, pos)
  {
    forall i: nat | i < |cells| && cells[i].Mark? ensures ms != [] && i <= ms[|ms| - 1].outPos {
      var j := MarkListed(cells, ms, i);
    }
  }

  /** Copying from among plain bytes adds plain bytes, so no marker. */
  lemma {:induction false} CopyOfBytes(cells: seq<Cell>, d: nat, n: nat)
    requires 0 < d <= |cells| && BytesFrom(cells, |cells| - d)
    ensures MarksOf(BlindCopy(cells, d, n)) == MarksOf(cells)
    decreases n
  {
    if n > 0 {
      var next := cells + [BlindSource(cells, d)];
      MarksOfStep(next, |cells|);
      assert next[..|cells|] == cells && next[..|cells| + 1] == next;
      CopyOfBytes(next, d, n - 1);
    }
  }

  /** A marked cell adds its marker at its position n, a byte adds none. */
  lemma MarksOfNext(cells: seq<Cell>, c: Cell, n: nat)
    requires n == |cells|
    ensures c.Mark? ==> MarksOf(cells + [c]) == MarksOf(cells) + [Marker(n % POS_LIMIT, c.off)]
    ensures c.Byte? ==> MarksOf(cells + [c]) == MarksOf(cells)
  {
    hide MarksOf;
    MarksOfStep(cells + [c], n);
    assert (cells + [c])[..n] == cells && (cells + [c])[..n + 1] == cells + [c];
  }

  /** A mark in a chunk that fits stands at a position 32 bits hold; and what comes before fits too. */
  lemma FitsNext(cells: seq<Cell>, c: Cell, longer: seq<Cell>)
    requires MarksFit(longer) && |cells| < |longer| && longer[..|cells| + 1] == cells + [c]
    ensures MarksFit(cells) && MarksFit(cells + [c])
    ensures c.Mark? ==> |cells| % POS_LIMIT == |cells|
  {
    assert longer[|cells|] == (cells + [c])[|cells|];
    FitsPrefix(cells + [c], longer);
    FitsPrefix(cells, cells + [c]);
  }

  lemma FitsPrefix(cells: seq<Cell>, longer: seq<Cell>)
    requires MarksFit(longer) && |cells| <= |longer| && longer[..|cells|] == cells
    ensures MarksFit(cells)
  {
    forall i | POS_LIMIT <= i < |cells| ensures cells[i].Byte? { assert longer[..|cells|][i] == longer[i]; }
  }

  lemma SmallerToo(n: nat, p: nat)
    requires n <= p
    ensures p % POS_LIMIT == p ==> n % POS_LIMIT == n
  {
  }

  /** The first cell of a blind copy, and the rest of it. */
  lemma CopyNext(cells: seq<Cell>, d: nat, n: nat)
    requires d > 0 && n > 0
    ensures var c := BlindSource(cells, d);
      && BlindCopy(cells, d, n) == BlindCopy(cells + [c], d, n - 1)
      && |cells| < |BlindCopy(cells, d, n)| && BlindCopy(cells, d, n)[..|cells| + 1] == cells + [c]
  {
    BlindCopyGrows(cells + [BlindSource(cells, d)], d, n - 1);
  }

  class Context {
    var markers: seq<Marker>
    var maxMarkerPos: Option<nat>
    var liveStart: nat
    ghost var cells: seq<Cell>

    ghost predicate Valid()
      reads this
    {
      && MarksFit(cells)
      && markers == MarksOf(cells) && maxMarkerPos == MaxOf(markers)
      && Retired(markers, liveStart, |cells|)
    }

    constructor ()
      ensures Valid() && cells == []
    {
      markers, maxMarkerPos, liveStart, cells := [], None, 0, [];
    }

    /** A literal byte leaves the table alone. */
    method Literal(b: u8)
      requires Valid()
      modifies this
      ensures Valid() && cells == old(cells) + [Byte(b)]
    {
      MarksOfNext(cells, Byte(b), |cells|);
      cells := cells + [Byte(b)];
    }

    /** `record_match_prefix`: one marker for each byte of the part of a match that lies before the
        chunk. */
    method RecordMatchPrefix(written: nat, dist: nat, count: nat)
      requires Valid() && written == |cells| && written + count <= dist && 0 < dist
      requires MarksFit(BlindCopy(cells, dist, count))
      modifies this
      ensures Valid() && cells == BlindCopy(old(cells), dist, count)
    {
      hide MarksOf, MarksFit, BlindCopy;
      var k := 0;
      while k < count
        invariant 0 <= k <= count && |cells| == written + k && Valid()
        invariant BlindCopy(cells, dist, count - k) == BlindCopy(old(cells), dist, count)
      {
        var offset := dist - written - k - 1;
        var outPos := (written + k) % POS_LIMIT;
        MarksOfNext(cells, Mark(offset), written + k);
        assert BlindSource(cells, dist) == Mark(offset);
        CopyNext(cells, dist, count - k);
        FitsNext(cells, Mark(offset), BlindCopy(cells, dist, count - k));
        markers := markers + [Marker(outPos, offset)];
        maxMarkerPos := Some(outPos);
        cells := cells + [Mark(offset)];
        k := k + 1;
      }
      NoCopy(cells, dist);
    }

    /** Move the cursor past the markers that no later copy can reach. */
    method Retire(floor: nat)
      requires Valid() && (floor == 0 || floor + MAX_DISTANCE <= |cells|)
      modifies this`liveStart
      ensures Valid() && liveStart >= old(liveStart)
    {
      while liveStart < |markers| && markers[liveStart].outPos < floor
        invariant Valid() && liveStart >= old(liveStart)
        decreases |markers| - liveStart
      {
        liveStart := liveStart + 1;
      }
    }

    /** `partition_point` on the live markers. */
    method FirstFrom(pos: nat) returns (cursor: nat)
      requires Valid() && |cells| <= pos + MAX_DISTANCE
      ensures Separates(markers, cursor, pos)
    {
      hide MarksOf;
      MarksComplete(cells);
      cursor := liveStart;
      while cursor < |markers| && markers[cursor].outPos < pos
        invariant cursor <= |markers|
        invariant forall j | 0 <= j < cursor :: markers[j].outPos < pos
      {
        cursor := cursor + 1;
      }
    }

    /** `propagate_match_cached`: give the copy of each marked byte a marker of its own, including marks
        that this very copy has just made. */
    method PropagateMatch(written: nat, dist: nat, len: nat)
      requires Valid() && written == |cells| && 0 < dist <= written && dist <= MAX_DISTANCE
      requires MarksFit(BlindCopy(cells, dist, len))
      modifies this
      ensures Valid() && cells == BlindCopy(old(cells), dist, len)
    {
      hide MarksOf, BlindCopy, Copying, Separates, Below;
      var srcLo := written - dist;
      ghost var cells0 := cells;
      BlindCopyGrows(cells, dist, len);
      MarksComplete(cells);
      if maxMarkerPos == None || srcLo > maxMarkerPos.value {
        BytesBehind(cells, markers, srcLo);
        CopyOfBytes(cells, dist, len);
        cells := BlindCopy(cells0, dist, len);
        return;
      }
      Retire(if written < MAX_DISTANCE then 0 else written - MAX_DISTANCE);
      var cursor: nat := FirstFrom(srcLo);
      var newMax: nat := maxMarkerPos.value;
      var k := 0;
      CopyingStart(cells, dist, len, markers, cursor, newMax);
      while k < len && srcLo + k <= newMax
        invariant 0 <= k <= len && Retired(markers, liveStart, written)
        invariant Copying(cells0, dist, len, k, cells, markers, cursor, newMax)
      {
        var pos := srcLo + k;
        while cursor < |markers| && markers[cursor].outPos < pos
          invariant Copying(cells0, dist, len, k, cells, markers, cursor, newMax)
          modifies {}
          decreases |markers| - cursor
        {
          CursorMoves(cells0, dist, len, k, cells, markers, cursor, newMax);
          cursor := cursor + 1;
        }
        // the last marker is at or past this position, so the cursor has not run off the list
        CopyingStep(cells0, dist, len, k, cells, markers, cursor, newMax);
        cells := cells + [BlindSource(cells, dist)];
        if markers[cursor].outPos == pos {
          newMax := (written + k) % POS_LIMIT;
          markers := markers + [Marker(newMax, markers[cursor].prefixOffset)];
          cursor := cursor + 1;
        }
        k := k + 1;
      }
      CopyingDone(cells0, dist, len, k, cells, markers, cursor, newMax);
      cells := BlindCopy(cells0, dist, len);
      maxMarkerPos := Some(newMax);
    }
  }

  /** A propagation after k of `len` bytes. */
  ghost predicate Copying(cells0: seq<Cell>, dist: nat, len: nat, k: nat, cells: seq<Cell>, ms: seq<Marker>,
                          cursor: nat, newMax: nat)
    requires 0 < dist <= |cells0| && k <= len
  {
    && |cells| == |cells0| + k && MarksFit(BlindCopy(cells0, dist, len))
    && ms == MarksOf(cells) && MaxOf(ms) == Some(newMax)
    && Below(ms, cursor, |cells0| - dist + k)
    && BlindCopy(cells, dist, len - k) == BlindCopy(cells0, dist, len)
  }

  lemma CopyingStart(cells: seq<Cell>, dist: nat, len: nat, ms: seq<Marker>, cursor: nat, newMax: nat)
    requires 0 < dist <= |cells| && MarksFit(BlindCopy(cells, dist, len))
    requires ms == MarksOf(cells) && MaxOf(ms) == Some(newMax) && Separates(ms, cursor, |cells| - dist)
    ensures Copying(cells, dist, len, 0, cells, ms, cursor, newMax)
  {
  }

  lemma CursorMoves(cells0: seq<Cell>, dist: nat, len: nat, k: nat, cells: seq<Cell>, ms: seq<Marker>,
                    cursor: nat, newMax: nat)
    requires 0 < dist <= |cells0| && k <= len && Copying(cells0, dist, len, k, cells, ms, cursor, newMax)
    requires cursor < |ms| && ms[cursor].outPos < |cells0| - dist + k
    ensures Copying(cells0, dist, len, k, cells, ms, cursor + 1, newMax)
  {
  }

  /** One byte of the copy: its marker, if it has one, stands at the cursor. */
  lemma CopyingStep(cells0: seq<Cell>, dist: nat, len: nat, k: nat, cells: seq<Cell>, ms: seq<Marker>,
                    cursor: nat, newMax: nat)
    requires 0 < dist <= |cells0| && k < len && Copying(cells0, dist, len, k, cells, ms, cursor, newMax)
    requires |cells0| - dist + k <= newMax
    requires cursor < |ms| ==> ms[cursor].outPos >= |cells0| - dist + k
    ensures cursor < |ms|
    ensures var cells' := cells + [BlindSource(cells, dist)];
      if ms[cursor].outPos == |cells0| - dist + k
      then Copying(cells0, dist, len, k + 1, cells', ms + [Marker((|cells0| + k) % POS_LIMIT, ms[cursor].prefixOffset)],
                   cursor + 1, (|cells0| + k) % POS_LIMIT)
      else Copying(cells0, dist, len, k + 1, cells', ms, cursor, newMax)
  {
    hide MarksOf, MarksFor, MarksFit, BlindCopy;
    var pos := |cells0| - dist + k;
    CopyNext(cells, dist, len - k);
    FitsNext(cells, BlindSource(cells, dist), BlindCopy(cells, dist, len - k));
    MarksComplete(cells);
    BelowSeparates(cells, ms, cursor, pos);
    MarkedAt(cells, ms, cursor, pos);
    assert BlindSource(cells, dist) == cells[pos];
    MarksOfNext(cells, cells[pos], |cells0| + k);
  }

  lemma BelowSeparates(cells: seq<Cell>, ms: seq<Marker>, cursor: nat, pos: nat)
    requires MarksFor(cells, ms) && Below(ms, cursor, pos)
    requires cursor < |ms| ==> ms[cursor].outPos >= pos
    ensures Separates(ms, cursor, pos)
  {
  }

  lemma CopyingDone(cells0: seq<Cell>, dist: nat, len: nat, k: nat, cells: seq<Cell>, ms: seq<Marker>,
                    cursor: nat, newMax: nat)
    requires 0 < dist <= |cells0| && k <= len && Copying(cells0, dist, len, k, cells, ms, cursor, newMax)
    requires k == len || |cells0| - dist + k > newMax
    ensures MarksOf(BlindCopy(cells0, dist, len)) == ms && MaxOf(ms) == Some(newMax)
  {
    hide MarksOf, MarksFit, BlindCopy;
    BlindCopyGrows(cells, dist, len - k);
    FitsPrefix(cells, BlindCopy(cells, dist, len - k));
    MarksComplete(cells);
    if k < len {
      BytesBehind(cells, ms, |cells0| - dist + k);
      CopyOfBytes(cells, dist, len - k);
    } else {
      NoCopy(cells, dist);
    }
  }

  // Whole tokens

  lemma {:induction false} LowerCopy(cells: seq<Cell>, d: nat, n: nat)
    requires 0 < d <= |cells|
    ensures Lower(CopyBack(cells, d, n)) == CopyBack(Lower(cells), d, n)
    decreases n
  {
    if n > 0 {
      LowerAppend(cells, cells[|cells| - d]);
      LowerCopy(cells + [cells[|cells| - d]], d, n - 1);
    }
  }

  /** The bytes of an in-chunk copy are a copy of the bytes, placeholders included. */
  lemma BytesCopy(pre: seq<u8>, cells: seq<Cell>, d: nat, n: nat)
    requires 0 < d <= |cells|
    ensures CopyBack(pre + Lower(cells), d, n) == pre + Lower(BlindCopy(cells, d, n))
  {
    BlindInside(cells, d, n);
    LowerCopy(cells, d, n);
    CopyBackPrefix(pre, Lower(cells), d, n);
  }

  lemma {:induction false} PrefixZeros(cells: seq<Cell>, d: nat, n: nat)
    requires |cells| + n <= d && d > 0
    ensures Lower(BlindCopy(cells, d, n)) == Lower(cells) + seq(n, _ => 0)
    decreases n
  {
    if n > 0 {
      var next := cells + [BlindSource(cells, d)];
      LowerAppend(cells, BlindSource(cells, d));
      PrefixZeros(next, d, n - 1);
    }
  }

  /** A match of the side-table decoder: the part before the chunk becomes zero placeholders with new
      markers, the rest is copied and its markers propagated. */
  method SideMatch(ctx: Context, out0: seq<u8>, chunkBase: nat, length: nat, distance: nat)
      returns (r: Result<()>, out: seq<u8>)
    requires ctx.Valid() && chunkBase <= |out0| && out0[chunkBase..] == Lower(ctx.cells)
    requires distance <= MAX_DISTANCE && (distance > 0 ==> MarksFit(BlindCopy(ctx.cells, distance, length)))
    modifies ctx
    ensures ctx.Valid() && out == out0[..chunkBase] + Lower(ctx.cells)
    ensures if distance == 0 then r == Err(Invalid) && ctx.cells == old(ctx.cells)
            else r == Ok(()) && ctx.cells == BlindCopy(old(ctx.cells), distance, length)
  {
    hide MarksOf, BlindCopy, CopyBack, Lower;
    ghost var cells, pre := ctx.cells, out0[..chunkBase];
    LowerLength(cells);
    out := out0;
    assert out == pre + Lower(cells);
    var emitted := |out| - chunkBase;
    if distance > emitted {
      var prefixCount := if distance - emitted < length then distance - emitted else length;
      PrefixZeros(cells, distance, prefixCount);
      BlindSplit(cells, distance, prefixCount, length - prefixCount);
      BlindCopyGrows(cells, distance, prefixCount);
      var zeros: seq<u8> := seq(prefixCount, _ => 0);
      assert pre + Lower(cells) + zeros == pre + (Lower(cells) + zeros);
      out := out + zeros;
      ctx.RecordMatchPrefix(emitted, distance, prefixCount);
      var inBuffer := length - prefixCount;
      if inBuffer > 0 {
        BytesCopy(pre, ctx.cells, distance, inBuffer);
        out := CopyBackSafe(out, distance, inBuffer);
        ctx.PropagateMatch(emitted + prefixCount, distance, inBuffer);
      } else {
        NoCopy(ctx.cells, distance);
      }
      return Ok(()), out;
    }
    if distance == 0 {
      return Err(Invalid), out;
    }
    BytesCopy(pre, cells, distance, length);
    out := CopyBackSafe(out, distance, length);
    ctx.PropagateMatch(emitted, distance, length);
    r := Ok(());
  }

  lemma NoCopy(cells: seq<Cell>, d: nat)
    requires d > 0
    ensures BlindCopy(cells, d, 0) == cells
  {
  }

  /** Shifted positions. */
  function ShiftMarks(ms: seq<Marker>, base: nat): (r: seq<Marker>)
    ensures |r| == |ms|
  {
    seq(|ms|, i requires 0 <= i < |ms| => Marker(ms[i].outPos + base, ms[i].prefixOffset))
  }

  lemma {:induction false} MarksOfConcat(a: seq<Cell>, b: seq<Cell>)
    requires MarksFit(a + b)
    ensures MarksOf(a + b) == MarksOf(a) + ShiftMarks(MarksOf(b), |a|)
    decreases |b|
  {
    if b == [] {
      assert a + b == a;
    } else {
      hide MarksOf, ShiftMarks, MarksFit;
      var n := |b| - 1;
      assert b == b[..n] + [b[n]];
      assert (a + b)[..|a| + n] == a + b[..n];
      FitsPrefix(a + b[..n], a + b);
      MarksOfConcat(a, b[..n]);
      MarksOfConcatNext(a, b[..n], b[n]);
    }
  }

  lemma MarksOfConcatNext(a: seq<Cell>, b: seq<Cell>, c: Cell)
    requires MarksFit(a + (b + [c])) && MarksOf(a + b) == MarksOf(a) + ShiftMarks(MarksOf(b), |a|)
    ensures MarksOf(a + (b + [c])) == MarksOf(a) + ShiftMarks(MarksOf(b + [c]), |a|)
  {
    hide MarksOf, ShiftMarks, MarksFit;
    var p := |a| + |b|;
    assert a + (b + [c]) == (a + b) + [c];
    FitsNext(a + b, c, (a + b) + [c]);
    SmallerToo(|b|, p);
    MarksOfNext(b, c, |b|);
    MarksOfNext(a + b, c, p);
    if c.Mark? { ShiftMarksSnoc(MarksOf(a), MarksOf(b), |b|, c.off, |a|, p); }
  }

  lemma ShiftMarksSnoc(before: seq<Marker>, ms: seq<Marker>, pos: nat, off: nat, base: nat, p: nat)
    requires p == base + pos
    ensures before + ShiftMarks(ms + [Marker(pos, off)], base) == before + ShiftMarks(ms, base) + [Marker(p, off)]
  {
  }

  /** `bytes_offset_markers`, once the bytes are in place: the table's markers, moved behind the chunk's
      earlier output. */
  method BytesOffsetMarkers(chunk: SpeculativeChunk, src: seq<Marker>, base: nat, out: seq<u8>, ghost cells: seq<Cell>)
    requires chunk.Valid() && base == |chunk.cells| && MarksFit(chunk.cells + cells)
    requires src == MarksOf(cells) && out == chunk.bytes + Lower(cells)
    modifies chunk
    ensures chunk.Valid() && chunk.cells == old(chunk.cells) + cells
  {
    hide MarksOf;
    MarksOfConcat(chunk.cells, cells);
    LowerConcat(chunk.cells, cells);
    var all := chunk.markers;
    var i := 0;
    while i < |src|
      invariant 0 <= i <= |src| && all == chunk.markers + ShiftMarks(src[..i], base)
    {
      assert src[..i + 1] == src[..i] + [src[i]];
      all := all + [Marker(src[i].outPos + base, src[i].prefixOffset)];
      i := i + 1;
    }
    assert src[..i] == src;
    chunk.bytes, chunk.markers := out, all;
    chunk.cells := chunk.cells + cells;
  }

  /** The whole of a speculative decode by side table, token after token: the chunk gains exactly what
      the 16-bit cells give it, bytes and marker list alike. */
  method DecodeTokens(chunk: SpeculativeChunk, ts: seq<Token>)
    requires chunk.Valid() && ValidTokens(ts) && MarksFit(chunk.cells + Blind([], ts))
    modifies chunk
    ensures chunk.Valid() && chunk.cells == old(chunk.cells) + Blind([], ts)
  {
    hide MarksOf, Lower, Blind, BlindCopy;
    LowerLength(chunk.cells);
    var ctx := new Context();
    var base, out := |chunk.bytes|, chunk.bytes;
    var i := 0;
    TokensStart(out, ts);
    while i < |ts|
      invariant 0 <= i <= |ts| && ctx.Valid() && fresh(ctx)
      invariant out == chunk.bytes + Lower(ctx.cells)
      invariant chunk.Valid() && chunk.cells == old(chunk.cells) && chunk.bytes == old(chunk.bytes)
      invariant Blind(ctx.cells, ts[i..]) == Blind([], ts)
    {
      TokenStep(ctx.cells, ts, i);
      TokenFits(chunk.cells, ctx.cells, ts, i);
      assert ValidToken(ts[i]);
      match ts[i] {
        case Lit(b) =>
          LowerAppend(ctx.cells, Byte(b));
          ctx.Literal(b);
          out := out + [b];
        case Copy(len, dist) =>
          var r;
          r, out := SideMatch(ctx, out, base, len, dist);
      }
      i := i + 1;
    }
    TokensEnd(ctx.cells, ts);
    BytesOffsetMarkers(chunk, ctx.markers, base, out, ctx.cells);
  }

  lemma TokensStart(out: seq<u8>, ts: seq<Token>)
    ensures out == out + Lower([]) && ts[0..] == ts
  {
  }

  lemma TokenStep(cells: seq<Cell>, ts: seq<Token>, i: nat)
    requires i < |ts|
    ensures Blind(cells, ts[i..]) == Blind(BlindOne(cells, ts[i]), ts[i + 1..])
    ensures |BlindOne(cells, ts[i])| <= |Blind(cells, ts[i..])|
    ensures ts[i].Copy? && ts[i].dist > 0 ==> |BlindOne(cells, ts[i])| == |cells| + ts[i].len
    ensures ts[i].Lit? ==> |BlindOne(cells, ts[i])| == |cells| + 1
  {
    assert ts[i..][1..] == ts[i + 1..];
    BlindGrows(BlindOne(cells, ts[i]), ts[i + 1..]);
    if ts[i].Copy? && ts[i].dist > 0 { BlindCopyGrows(cells, ts[i].dist, ts[i].len); }
  }

  /** As the whole decode fits, so does the next token's part of it. */
  lemma TokenFits(before: seq<Cell>, cells: seq<Cell>, ts: seq<Token>, i: nat)
    requires i < |ts| && MarksFit(before + Blind(cells, ts[i..]))
    ensures MarksFit(BlindOne(cells, ts[i]))
  {
    hide Blind, BlindOne;
    var next := BlindOne(cells, ts[i]);
    var all := Blind(cells, ts[i..]);
    assert Blind(cells, ts[i..]) == Blind(next, ts[i + 1..]) by { TokenStep(cells, ts, i); }
    BlindGrows(next, ts[i + 1..]);
    forall k | POS_LIMIT <= k < |next| ensures next[k].Byte? {
      assert next[k] == all[..|next|][k] == (before + all)[|before| + k];
    }
  }

  lemma TokensEnd(cells: seq<Cell>, ts: seq<Token>)
    ensures Blind(cells, ts[|ts|..]) == cells
  {
  }
}
