/** The bounded 16-bit window of the speculative decoder (deflate/fast_inflate.rs): a fixed buffer that
    keeps the last 32 Ki cells and flushes older ones into the chunk. */
module U16Window {
  import opened Words
  import opened Tables
  import opened Lz77
  import opened Speculative
  import opened CopyKernels

  /** History kept for back-references. */
  const U16_WINDOW: nat := 0x8000

  const U16_FLUSH_AT: nat := 0x4_0000

  /** Cells from which a marker-free window is handed to the byte kernel. */
  const U16_HANDOFF_AT: nat := 0x1_0000

  const COPY_WIDTH: nat := 8

  /** Room past the flush mark for one match and a copy's overshoot. */
  const U16_BUFCAP: nat := U16_FLUSH_AT + 258 + 16 + 8

  /** Copying 16-bit cells copies what they mean. */
  lemma {:induction false} CopyDecodes(s: seq<u16>, d: nat, n: nat)
    requires 0 < d <= |s|
    ensures DecodeCells(CopyBack(s, d, n)) == CopyBack(DecodeCells(s), d, n)
    decreases n
  {
    if n > 0 {
      assert DecodeCells(s + [s[|s| - d]]) == DecodeCells(s) + [DecodeCells(s)[|s| - d]];
      CopyDecodes(s + [s[|s| - d]], d, n - 1);
    }
  }

  lemma DecodeSplits(live: seq<u16>, k: nat)
    requires k <= |live|
    ensures DecodeCells(live) == DecodeCells(live[..k]) + DecodeCells(live[k..])
  {
  }

  lemma ConcatSplits<T>(a: seq<T>, x: seq<T>, y: seq<T>, start: nat)
    requires start <= |a|
    ensures (a + x)[..start] == a[..start]
    ensures (a + x)[start..] + y == a[start..] + (x + y)
  {
  }

  class Window {
    const scratch: array<u16>
    const chunk: SpeculativeChunk
    var cur: nat
    var windowBase: nat
    /** Cells the chunk held before this decode. */
    ghost var start: nat

    ghost predicate Valid()
      reads this, scratch, chunk
    {
      && scratch.Length == U16_BUFCAP
      && chunk.Valid() && start <= |chunk.cells|
      && windowBase == |chunk.cells| - start
      && cur < U16_FLUSH_AT + 258
      && (windowBase > 0 ==> cur >= U16_WINDOW)
    }

    /** All cells decoded so far: those flushed, then those still in the buffer. */
    ghost function History(): seq<Cell>
      requires Valid()
      reads this, scratch, chunk
    {
      chunk.cells[start..] + DecodeCells(scratch[..cur])
    }

    constructor (chunk: SpeculativeChunk, scratch: array<u16>)
      requires scratch.Length == U16_BUFCAP && chunk.Valid()
      ensures Valid() && History() == [] && this.chunk == chunk && this.scratch == scratch
      ensures start == |chunk.cells| && cur == 0
    {
      this.chunk := chunk;
      this.scratch := scratch;
      cur, windowBase, start := 0, 0, |chunk.cells|;
    }

    /** Emit everything older than the window and slide the window down. */
    method Flush()
      requires Valid() && cur > U16_WINDOW
      modifies this`cur, this`windowBase, scratch, chunk
      ensures Valid() && History() == old(History()) && cur == U16_WINDOW
      ensures start == old(start) && chunk.cells[..start] == old(chunk.cells[..start])
    {
      hide Lower, MarksOf, DecodeCell;
      var flushCount := cur - U16_WINDOW;
      ghost var live, cells := scratch[..cur], chunk.cells;
      chunk.ExtractFromU16(scratch, flushCount);
      SlideDown(flushCount);
      windowBase := windowBase + flushCount;
      cur := U16_WINDOW;
      assert scratch[..cur] == live[flushCount..];
      DecodeSplits(live, flushCount);
      ConcatSplits(cells, DecodeCells(live[..flushCount]), DecodeCells(live[flushCount..]), start);
      assert chunk.cells == cells + DecodeCells(live[..flushCount]);
      assert History() == chunk.cells[start..] + DecodeCells(live[flushCount..]);
    }

    /** Lower the entire live window into the chunk. */
    method LowerAll()
      requires Valid()
      modifies chunk
      ensures chunk.Valid() && chunk.cells == old(chunk.cells[..start]) + old(History())
    {
      ghost var cells := chunk.cells;
      chunk.ExtractFromU16(scratch, cur);
      assert cells == cells[..start] + cells[start..];
    }

    /** `copy_within((cur - window)..cur, 0)` */
    method SlideDown(from: nat)
      requires scratch.Length == U16_BUFCAP && from + U16_WINDOW <= U16_BUFCAP
      modifies scratch
      ensures scratch[..U16_WINDOW] == old(scratch[from..from + U16_WINDOW])
    {
      WriteRun(scratch, 0, scratch[from..from + U16_WINDOW]);
    }

    /** Append one cell. */
    method Push(c: u16)
      requires Valid() && cur < U16_FLUSH_AT
      modifies this`cur, scratch
      ensures Valid() && History() == old(History()) + [DecodeCell(c)] && cur == old(cur) + 1
    {
      ghost var live := scratch[..cur];
      scratch[cur] := c;
      cur := cur + 1;
      assert scratch[..cur] == live + [c];
      assert DecodeCells(live + [c]) == DecodeCells(live) + [DecodeCell(c)];
    }

    /** A match whose source lies inside the live window: the wide copy of whole cells, markers
        included. Its overshoot stays inside the buffer. */
    method CopyInside(distance: nat, length: nat)
      requires Valid() && 0 < distance <= cur && 0 < length && cur + length < U16_FLUSH_AT + 258
      modifies this`cur, scratch
      ensures Valid() && cur == old(cur) + length
      ensures History() == CopyBack(old(History()), distance, length)
    {
      ghost var live := scratch[..cur];
      CopyBackRaw(scratch, cur, distance, length, COPY_WIDTH);
      cur := cur + length;
      CopyDecodes(live, distance, length);
      CopyBackPrefix(chunk.cells[start..], DecodeCells(live), distance, length);
      CopyBackAt(live, distance, length);
    }

    /** A match as the loop performs it: before the first flush its source may start in the unknown
        prefix, which writes one marker per such cell; afterwards every distance lies in the window. */
    method Match(distance: nat, length: nat)
      requires Valid() && cur < U16_FLUSH_AT
      requires 0 < distance <= MAX_DISTANCE && 0 < length <= MAX_LENGTH
      modifies this`cur, scratch
      ensures Valid() && cur == old(cur) + length
      ensures History() == BlindCopy(old(History()), distance, length)
    {
      ghost var before := History();
      var rest := length;
      if windowBase == 0 && distance > cur {
        var prefixCount := if distance - cur < length then distance - cur else length;
        assert |before| == cur;
        WriteMarkers(distance, prefixCount);
        BlindSplit(before, distance, prefixCount, length - prefixCount);
        rest := length - prefixCount;
        if rest == 0 {
          return;
        }
      }
      BlindInside(History(), distance, rest);
      CopyInside(distance, rest);
    }

    /** One marker per cell whose source precedes the chunk. */
    method WriteMarkers(distance: nat, count: nat)
      requires Valid() && windowBase == 0 && cur < U16_FLUSH_AT
      requires 0 < distance <= MAX_DISTANCE && cur + count <= distance && count <= MAX_LENGTH
      modifies this`cur, scratch
      ensures Valid() && cur == old(cur) + count
      ensures History() == BlindCopy(old(History()), distance, count)
    {
      ghost var before := History();
      ghost var cur0 := cur;
      var k := 0;
      while k < count
        invariant 0 <= k <= count && Valid() && cur == cur0 + k
        invariant History() == BlindCopy(before, distance, k)
      {
        BlindSplit(before, distance, k, 1);
        assert |History()| == cur;
        BlindSingle(History(), distance);
        Push(MARKER16 + (distance - cur - 1));
        k := k + 1;
      }
    }
  }

  lemma BlindSingle(cells: seq<Cell>, d: nat)
    requires d > |cells|
    ensures BlindCopy(cells, d, 1) == cells + [Mark(d - |cells| - 1)]
  {
    assert BlindCopy(cells + [BlindSource(cells, d)], d, 0) == cells + [BlindSource(cells, d)];
  }
}
