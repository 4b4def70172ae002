/** The chain of chunks as a state that advances one chunk at a time, which is how stage A, the resolvers
    and the output stage see it (pipeline.rs). */
module Chain {
  import opened Words
  import opened Tables
  import opened Lz77
  import opened Deflate
  import opened Speculative
  import opened Walk

  /** Before a chunk: where it starts and what has been put out; or the run is over. */
  datatype ChainState = Running(p: nat, out: seq<u8>, bounds: seq<Boundary>) | Over(result: PipelineResult)

  ghost function ChainStep(src: Source, hint: nat, s: ChainState): ChainState
    requires Forward(src)
  {
    match s
    case Over(_) => s
    case Running(p, out, bounds) =>
      match ChunkAt(src, p, hint)
      case ChunkErr => Over(Failed)
      case Chunk(cells, bs, final, end) =>
        if !Resolvable(cells, |Tail(out)|) then Over(Failed)
        else
          var out' := out + Resolved(cells, Tail(out));
          var bounds' := bounds + Shift(bs, |out|);
          if final then Over(Delivered(out', bounds')) else Running(end, out', bounds')
  }

  /** The state after the first k chunks. */
  ghost function ChainTo(src: Source, hints: seq<nat>, k: nat): ChainState
    requires Forward(src) && k <= |hints|
    decreases k
  {
    if k == 0 then Running(0, [], []) else ChainStep(src, hints[k - 1], ChainTo(src, hints, k - 1))
  }

  /** Every state is on the way to the pipeline's result. */
  lemma {:induction false} ChainToIs(src: Source, hints: seq<nat>, k: nat)
    requires Forward(src) && k <= |hints|
    ensures match ChainTo(src, hints, k)
      case Over(r) => Pipeline(src, hints) == r
      case Running(p, out, bounds) =>
        p <= src.bits && Pipeline(src, hints) == ChainFrom(src, hints[k..], p, out, bounds)
    decreases k
  {
    hide Forward, ChunkFrom, Shift, Resolvable, Resolved, Tail;
    if k == 0 {
      assert hints[0..] == hints;
    } else {
      ChainToIs(src, hints, k - 1);
      assert hints[k - 1..][0] == hints[k - 1] && hints[k - 1..][1..] == hints[k..];
      var s := ChainTo(src, hints, k - 1);
      if s.Running? { ChunkEnds(src, s.p, hints[k - 1], true, [], []); }
    }
  }

  /** With the last hint past the end, the last chunk ends the run. */
  lemma ChainEnds(src: Source, hints: seq<nat>)
    requires Forward(src) && Plausible(src, hints)
    ensures ChainTo(src, hints, |hints|) == Over(Pipeline(src, hints))
  {
    hide Forward, ChunkFrom, ChainFrom, Shift, Resolvable, Resolved, Tail;
    ChainToIs(src, hints, |hints|);
    ChainToIs(src, hints, |hints| - 1);
    var s := ChainTo(src, hints, |hints| - 1);
    if s.Running? { ChunkEnds(src, s.p, hints[|hints| - 1], true, [], []); }
  }

  /** A member cannot end in the last bits of the body: its trailer would not fit. */
  ghost predicate Roomy(src: Source) {
    forall e: nat :: src.trailer(e).NoTrailer? || e + 64 <= src.bits
  }

  lemma {:induction false} LateChunk(src: Source, p: nat, hint: nat, first: bool, cells: seq<Cell>,
                                     bounds: seq<Boundary>)
    requires Forward(src) && Roomy(src) && p + 64 > src.bits
    ensures var c := ChunkFrom(src, p, hint, first, cells, bounds);
      c.ChunkErr? || (!c.final && c.end + 64 > src.bits)
    decreases src.bits - p
  {
    hide Forward, ChunkBlock;
    BlockForwardAt(src, p);
    var b := src.block(p);
    if p < hint && b.Block? {
      var next := ChunkBlock(cells, first, b.tokens);
      if next.Some? && !b.final { LateChunk(src, b.end, hint, first, next.value, bounds); }
    }
  }

  /** A chain that has come that far fails. */
  lemma {:induction false} LateChain(src: Source, hints: seq<nat>, p: nat, out: seq<u8>, bounds: seq<Boundary>)
    requires Forward(src) && Roomy(src) && p + 64 > src.bits
    ensures ChainFrom(src, hints, p, out, bounds) == Failed
    decreases |hints|
  {
    hide Forward, Roomy, ChunkFrom, Shift, Resolvable, Resolved, Tail;
    if hints != [] {
      LateChunk(src, p, hints[0], true, [], []);
      var c := ChunkAt(src, p, hints[0]);
      if c.Chunk? && Resolvable(c.cells, |Tail(out)|) {
        LateChain(src, hints[1..], c.end, out + Resolved(c.cells, Tail(out)), bounds + Shift(c.bounds, |out|));
      }
    }
  }

  /** So a worker that gives up on a chunk ending that late loses nothing. */
  lemma LateFailure(src: Source, hints: seq<nat>, k: nat)
    requires Forward(src) && Roomy(src) && k < |hints| && ChainTo(src, hints, k).Running?
    requires var c := ChunkAt(src, ChainTo(src, hints, k).p, hints[k]);
      c.ChunkErr? || (!c.final && c.end + 64 > src.bits)
    ensures Pipeline(src, hints) == Failed
  {
    hide Forward, Roomy, ChunkFrom, ChainFrom, Shift, Resolvable, Resolved, Tail;
    ChainToIs(src, hints, k + 1);
    var s := ChainTo(src, hints, k + 1);
    if s.Running? { LateChain(src, hints[k + 1..], s.p, s.out, s.bounds); }
  }

  /** The tail of what a tail is extended by is the tail of the whole. */
  lemma TailOfTail(out: seq<u8>, more: seq<u8>)
    ensures Tail(Tail(out) + more) == Tail(out + more)
  {
  }
}
