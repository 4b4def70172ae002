/** Integrity checks (pipeline.rs): per-chunk digest pieces, stitched together in order, check exactly
    each member's digest and length. */
module Digest {
  import opened Words
  import opened Lz77
  import opened Deflate
  import opened Walk

  /** A checksum that can be combined over a concatenation, as CRC-32 can: `join(a, b, n)` is the digest
      of two stretches with digests a and b, the second n bytes long. */
  datatype Hasher = Hasher(of: seq<u8> -> nat, join: (nat, nat, nat) -> nat)

  ghost predicate Lawful(h: Hasher) {
    forall a: seq<u8>, b: seq<u8> :: h.join(h.of(a), h.of(b), |b|) == h.of(a + b)
  }

  /** Lengths in trailers are kept modulo 2^32. */
  const ISIZE_LIMIT: nat := 0x1_0000_0000

  // Members

  /** Where the k-th member begins. */
  function StartOf(bounds: seq<Boundary>, k: nat): nat
    requires k <= |bounds|
  {
    if k == 0 then 0 else bounds[k - 1].at
  }

  /** Boundaries in order and inside n bytes. */
  ghost predicate Ordered(bounds: seq<Boundary>, n: nat) {
    forall k | 0 <= k < |bounds| :: StartOf(bounds, k) <= bounds[k].at <= n
  }

  /** The k-th member's bytes; for k == |bounds|, those of the member in progress. */
  ghost function Part(out: seq<u8>, bounds: seq<Boundary>, k: nat): seq<u8>
    requires k <= |bounds| && Ordered(bounds, |out|)
  {
    if k < |bounds| then out[StartOf(bounds, k)..bounds[k].at]
    else if k == 0 then out else out[bounds[k - 1].at..]
  }

  /** The k-th member carries the digest and the length its trailer says. */
  ghost predicate MemberOk(h: Hasher, out: seq<u8>, bounds: seq<Boundary>, k: nat)
    requires k < |bounds| && Ordered(bounds, |out|)
  {
    h.of(Part(out, bounds, k)) == bounds[k].crc && |Part(out, bounds, k)| % ISIZE_LIMIT == bounds[k].isize
  }

  ghost predicate AllOk(h: Hasher, out: seq<u8>, bounds: seq<Boundary>)
    requires Ordered(bounds, |out|)
  {
    forall k | 0 <= k < |bounds| :: MemberOk(h, out, bounds, k)
  }

  predicate PieceIs(h: Hasher, part: seq<u8>, piece: (nat, nat)) {
    piece.0 == h.of(part) && piece.1 == |part|
  }

  /** A chunk's pieces: the digest and length of each stretch up to a boundary. */
  ghost predicate PiecesOf(h: Hasher, bytes: seq<u8>, bounds: seq<Boundary>, pieces: seq<(nat, nat)>) {
    && Ordered(bounds, |bytes|) && |pieces| <= |bounds|
    && forall i | 0 <= i < |pieces| :: PieceIs(h, Part(bytes, bounds, i), pieces[i])
  }

  /** The resolver's loop over a chunk's boundaries. */
  method ChunkPieces(h: Hasher, bytes: seq<u8>, bounds: seq<Boundary>)
      returns (pieces: seq<(nat, nat)>, tail: (nat, nat))
    requires Ordered(bounds, |bytes|)
    ensures PiecesOf(h, bytes, bounds, pieces) && |pieces| == |bounds|
    ensures PieceIs(h, Part(bytes, bounds, |bounds|), tail)
  {
    var cursor, i := 0, 0;
    pieces := [];
    while i < |bounds|
      invariant 0 <= i == |pieces| <= |bounds| && cursor == StartOf(bounds, i)
      invariant PiecesOf(h, bytes, bounds, pieces)
    {
      assert StartOf(bounds, i) <= bounds[i].at <= |bytes|;
      var part := bytes[cursor..bounds[i].at];
      assert part == Part(bytes, bounds, i);
      pieces := pieces + [(h.of(part), |part|)];
      cursor := bounds[i].at;
      i := i + 1;
    }
    assert cursor <= |bytes| && bytes[cursor..] == Part(bytes, bounds, |bounds|);
    tail := (h.of(bytes[cursor..]), |bytes| - cursor);
  }

  // Stitching

  /** The running state: all complete members are right, and `cur` covers the one in progress. */
  ghost predicate Stitched(h: Hasher, out: seq<u8>, bounds: seq<Boundary>, cur: (nat, nat)) {
    && Ordered(bounds, |out|) && AllOk(h, out, bounds)
    && PieceIs(h, Part(out, bounds, |bounds|), cur)
  }

  /** More output, and a boundary at its end, do not change a complete member. */
  lemma MembersStay(h: Hasher, out: seq<u8>, bounds: seq<Boundary>, more: seq<u8>, b: Boundary)
    requires Ordered(bounds, |out|) && AllOk(h, out, bounds) && b.at == |out| + |more|
    ensures Ordered(bounds, |out + more|) && AllOk(h, out + more, bounds)
    ensures Part(out + more, bounds, |bounds|) == Part(out, bounds, |bounds|) + more
    ensures Ordered(bounds + [b], |out + more|)
    ensures Part(out + more, bounds + [b], |bounds|) == Part(out, bounds, |bounds|) + more
    ensures forall k | 0 <= k < |bounds| :: MemberOk(h, out + more, bounds + [b], k)
  {
    var all := bounds + [b];
    forall k | 0 <= k < |bounds|
      ensures StartOf(bounds, k) <= bounds[k].at <= |out + more|
      ensures StartOf(all, k) == StartOf(bounds, k) && all[k] == bounds[k]
    {
      assert StartOf(bounds, k) <= bounds[k].at <= |out|;
    }
    assert StartOf(all, |bounds|) == StartOf(bounds, |bounds|) <= |out|;
    forall k | 0 <= k < |bounds|
      ensures MemberOk(h, out + more, bounds, k) && MemberOk(h, out + more, all, k)
    {
      assert MemberOk(h, out, bounds, k);
      assert Part(out + more, bounds, k) == Part(out + more, all, k) == Part(out, bounds, k);
    }
  }

  /** Joining the digest of the part up to a boundary checks exactly the member that ends there. */
  lemma StitchMember(h: Hasher, out: seq<u8>, bounds: seq<Boundary>, cur: (nat, nat), part: seq<u8>,
                     piece: (nat, nat), b: Boundary)
    requires Lawful(h) && Stitched(h, out, bounds, cur) && PieceIs(h, part, piece) && b.at == |out| + |part|
    ensures Ordered(bounds + [b], |out + part|)
    ensures var ok := h.join(cur.0, piece.0, piece.1) == b.crc && (cur.1 + piece.1) % ISIZE_LIMIT == b.isize;
      && (ok <==> MemberOk(h, out + part, bounds + [b], |bounds|))
      && (ok ==> Stitched(h, out + part, bounds + [b], (h.of([]), 0)))
  {
    hide Part;
    MembersStay(h, out, bounds, part, b);
    PartEnds(out + part, bounds + [b]);
  }

  lemma PartEnds(out: seq<u8>, bounds: seq<Boundary>)
    requires Ordered(bounds, |out|) && bounds != [] && bounds[|bounds| - 1].at == |out|
    ensures Part(out, bounds, |bounds|) == []
  {
  }

  /** Joining a part without a boundary carries the member on. */
  lemma StitchTail(h: Hasher, out: seq<u8>, bounds: seq<Boundary>, cur: (nat, nat), part: seq<u8>, piece: (nat, nat))
    requires Lawful(h) && Stitched(h, out, bounds, cur) && PieceIs(h, part, piece)
    ensures Stitched(h, out + part, bounds, (h.join(cur.0, piece.0, piece.1), cur.1 + piece.1))
  {
    hide Part;
    MembersStay(h, out, bounds, part, Boundary(|out| + |part|, 0, 0));
  }

  /** A member's verdict depends only on the output up to its end. */
  lemma VerdictStays(h: Hasher, out: seq<u8>, bounds: seq<Boundary>, out': seq<u8>, bounds': seq<Boundary>, k: nat)
    requires k < |bounds| && Ordered(bounds, |out|) && Ordered(bounds', |out'|)
    requires out <= out' && bounds <= bounds'
    ensures MemberOk(h, out', bounds', k) == MemberOk(h, out, bounds, k)
  {
    assert bounds'[k] == bounds[k] && StartOf(bounds', k) == StartOf(bounds, k);
    assert StartOf(bounds, k) <= bounds[k].at <= |out|;
    assert out'[..|out|] == out;
    assert Part(out', bounds', k) == Part(out, bounds, k);
  }

  // Boundaries of chunks and of the chain

  lemma OrderedGrows(bounds: seq<Boundary>, n: nat, m: nat)
    requires Ordered(bounds, n) && n <= m
    ensures Ordered(bounds, m)
  {
    forall k | 0 <= k < |bounds| ensures StartOf(bounds, k) <= bounds[k].at <= m {
      assert StartOf(bounds, k) <= bounds[k].at <= n;
    }
  }

  lemma OrderedSnoc(bounds: seq<Boundary>, n: nat, b: Boundary)
    requires Ordered(bounds, n) && b.at == n
    ensures Ordered(bounds + [b], n)
  {
    var all := bounds + [b];
    forall k | 0 <= k < |all| ensures StartOf(all, k) <= all[k].at <= n {
      if k < |bounds| { assert StartOf(bounds, k) <= bounds[k].at <= n; }
      if k > 0 { assert StartOf(bounds, k - 1) <= bounds[k - 1].at <= n; }
    }
  }

  lemma OrderedConcat(a: seq<Boundary>, n: nat, b: seq<Boundary>, m: nat)
    requires Ordered(a, n) && Ordered(b, m)
    ensures Ordered(a + Shift(b, n), n + m)
  {
    var all := a + Shift(b, n);
    forall k | 0 <= k < |all| ensures StartOf(all, k) <= all[k].at <= n + m {
      if k < |a| {
        assert StartOf(a, k) <= a[k].at <= n;
      } else {
        assert StartOf(b, k - |a|) <= b[k - |a|].at <= m;
        if k == |a| && k > 0 { assert StartOf(a, k - 1) <= a[k - 1].at <= n; }
      }
    }
  }

  /** A chunk's member boundaries are in order and inside its bytes. */
  lemma {:induction false} ChunkOrdered(src: Source, p: nat, hint: nat, first: bool, cells: seq<Cell>,
                                        bounds: seq<Boundary>)
    requires Forward(src) && p <= src.bits && Ordered(bounds, |cells|)
    ensures var c := ChunkFrom(src, p, hint, first, cells, bounds);
      c.Chunk? ==> Ordered(c.bounds, |c.cells|)
    decreases src.bits - p
  {
    hide Forward, ChunkBlock, Ordered;
    BlockForwardAt(src, p);
    var b := src.block(p);
    if p < hint && b.Block? {
      var next := ChunkBlock(cells, first, b.tokens);
      ChunkBlockGrows(cells, first, b.tokens);
      if next.Some? {
        var n := |next.value|;
        OrderedGrows(bounds, |cells|, n);
        if !b.final {
          ChunkOrdered(src, b.end, hint, first, next.value, bounds);
        } else {
          var t := src.trailer(b.end);
          TrailerForwardAt(src, b.end);
          if !t.NoTrailer? { OrderedSnoc(bounds, n, Boundary(n, t.crc, t.isize)); }
          if t.NextMember? {
            ChunkOrdered(src, t.first, hint, false, next.value, bounds + [Boundary(n, t.crc, t.isize)]);
          }
        }
      }
    }
  }
}
