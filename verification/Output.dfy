/** Resolvers and the output stage of the parallel decoder (pipeline.rs): chunks leave in order, and
    every member is checked before its last chunk does. */
module Output {
  import opened Words
  import opened BitStream
  import opened Tables
  import opened Lz77
  import opened Speculative
  import opened Walk
  import opened Chain
  import opened Digest
  import opened Endings
  import opened Workers

  /** A resolved chunk with the digests of its pieces. */
  datatype Done = Done(id: nat, bytes: seq<u8>, final: bool, bounds: seq<Boundary>,
                       pieces: seq<(nat, nat)>, tail: (nat, nat))

  /** The chain after this chunk's bytes and boundaries. */
  ghost predicate Advances(src: Source, hints: seq<nat>, d: Done)
    requires Forward(src) && d.id < |hints|
  {
    var s := ChainTo(src, hints, d.id);
    s.Running? ==>
      var out, bounds := s.out + d.bytes, s.bounds + Shift(d.bounds, |s.out|);
      match ChainTo(src, hints, d.id + 1)
      case Running(_, o, b) => !d.final && o == out && b == bounds
      case Over(r) => d.final && r == Delivered(out, bounds)
  }

  /** Right when it comes to the chain as it is there, and digested. */
  ghost predicate RightDone(src: Source, hints: seq<nat>, h: Hasher, d: Done)
    requires Forward(src)
  {
    && d.id < |hints| && Advances(src, hints, d)
    && PiecesOf(h, d.bytes, d.bounds, d.pieces) && |d.pieces| == |d.bounds|
    && PieceIs(h, Part(d.bytes, d.bounds, |d.bounds|), d.tail)
  }

  /** What a resolver may make of a task: the chain's next bytes, digested; or an error the whole decode
      then ends in. */
  ghost predicate ResolverAnswers(src: Source, hints: seq<nat>, h: Hasher, t: Task, r: Result<Done>)
    requires Forward(src) && t.id < |hints|
  {
    match r
    case Ok(d) => d.id == t.id && d.final == t.final && RightDone(src, hints, h, d)
    case Err(_) => ChainTo(src, hints, t.id).Running? ==> Pipeline(src, hints) == Failed
  }

  /** One resolver job: patch the chunk in place and digest its pieces. A marker beyond the tail is an
      error, and then the chain has failed too. */
  method Resolve(ghost src: Source, ghost hints: seq<nat>, h: Hasher, job: Job) returns (r: Result<Done>)
    requires Forward(src) && RightJob(src, hints, job)
    modifies job.chunk
    ensures ResolverAnswers(src, hints, h, old(TaskOf(job)), r)
  {
    hide Forward, ChunkFrom, ChainFrom, Tail, Resolvable, Resolved, Shift, Lower, MarksOf, PatchAll, Part;
    ghost var cells := job.chunk.cells;
    LoweredResolves(cells, job.prevTail);
    var res := job.chunk.ResolveMarkers(job.prevTail);
    if job.id < |hints| { ChainToIs(src, hints, job.id + 1); }
    if res.Err? {
      return Err(Invalid);
    }
    var bytes := job.chunk.bytes;
    assert bytes == Resolved(cells, job.prevTail) && |bytes| == |cells|;
    var pieces, tail := ChunkPieces(h, bytes, job.bounds);
    r := Ok(Done(job.id, bytes, job.final, job.bounds, pieces, tail));
  }

  // Output

  /** The members completed so far are right. */
  ghost predicate Checked(h: Hasher, out: seq<u8>, bounds: seq<Boundary>) {
    Ordered(bounds, |out|) && AllOk(h, out, bounds)
  }

  ghost predicate StateChecked(h: Hasher, s: ChainState) {
    match s
    case Running(_, out, bounds) => Checked(h, out, bounds)
    case Over(r) => r.Delivered? && Checked(h, r.out, r.bounds)
  }

  /** A chunk's pieces joined onto the member in progress, each completed member checked. */
  method StitchChunk(h: Hasher, d: Done, cur0: (nat, nat), ghost out: seq<u8>, ghost bounds: seq<Boundary>)
      returns (ok: bool, cur: (nat, nat))
    requires Lawful(h) && Stitched(h, out, bounds, cur0)
    requires PiecesOf(h, d.bytes, d.bounds, d.pieces) && |d.pieces| == |d.bounds|
    requires PieceIs(h, Part(d.bytes, d.bounds, |d.bounds|), d.tail)
    ensures var out', bounds' := out + d.bytes, bounds + Shift(d.bounds, |out|);
      && Ordered(bounds', |out'|)
      && (ok ==> Stitched(h, out', bounds', cur))
      && (!ok ==> !AllOk(h, out', bounds'))
  {
    hide Part, MemberOk, AllOk, Ordered, Lawful, PieceIs;
    cur := cur0;
    var i := 0;
    OrderedConcat(bounds, |out|, d.bounds, |d.bytes|);
    UpToStart(out, bounds, d);
    while i < |d.bounds|
      invariant 0 <= i <= |d.bounds|
      invariant Ordered(d.bounds, |d.bytes|) && StartOf(d.bounds, i) <= |d.bytes|
      invariant Stitched(h, OutTo(out, d, i), BoundsTo(out, bounds, d, i), cur)
    {
      var piece := d.pieces[i];
      UpToStep(h, out, bounds, d, i);
      ghost var b := d.bounds[i].(at := d.bounds[i].at + |out|);
      StitchMember(h, OutTo(out, d, i), BoundsTo(out, bounds, d, i), cur, Part(d.bytes, d.bounds, i), piece, b);
      var digest, len := h.join(cur.0, piece.0, piece.1), cur.1 + piece.1;
      if digest != d.bounds[i].crc || len % ISIZE_LIMIT != d.bounds[i].isize {
        WrongMember(h, out, bounds, d, i);
        return false, cur;
      }
      cur := (h.of([]), 0);
      i := i + 1;
    }
    StitchTail(h, OutTo(out, d, i), BoundsTo(out, bounds, d, i), cur, Part(d.bytes, d.bounds, i), d.tail);
    UpToEnd(out, bounds, d);
    cur := (h.join(cur.0, d.tail.0, d.tail.1), cur.1 + d.tail.1);
    ok := true;
  }

  /** The output up to the i-th piece of a chunk. */
  ghost function OutTo(out: seq<u8>, d: Done, i: nat): seq<u8>
    requires i <= |d.bounds| && StartOf(d.bounds, i) <= |d.bytes|
  {
    out + d.bytes[..StartOf(d.bounds, i)]
  }

  ghost function BoundsTo(out: seq<u8>, bounds: seq<Boundary>, d: Done, i: nat): seq<Boundary>
    requires i <= |d.bounds|
  {
    bounds + Shift(d.bounds[..i], |out|)
  }

  lemma UpToStart(out: seq<u8>, bounds: seq<Boundary>, d: Done)
    ensures OutTo(out, d, 0) == out && BoundsTo(out, bounds, d, 0) == bounds
  {
  }

  lemma UpToStep(h: Hasher, out: seq<u8>, bounds: seq<Boundary>, d: Done, i: nat)
    requires i < |d.bounds| && PiecesOf(h, d.bytes, d.bounds, d.pieces) && |d.pieces| == |d.bounds|
    requires StartOf(d.bounds, i) <= |d.bytes|
    ensures StartOf(d.bounds, i + 1) <= |d.bytes|
    ensures PieceIs(h, Part(d.bytes, d.bounds, i), d.pieces[i])
    ensures OutTo(out, d, i + 1) == OutTo(out, d, i) + Part(d.bytes, d.bounds, i)
    ensures BoundsTo(out, bounds, d, i + 1)
         == BoundsTo(out, bounds, d, i) + [d.bounds[i].(at := d.bounds[i].at + |out|)]
    ensures d.bounds[i].at + |out| == |OutTo(out, d, i)| + |Part(d.bytes, d.bounds, i)|
  {
    hide PieceIs, Shift;
    assert StartOf(d.bounds, i) <= d.bounds[i].at <= |d.bytes|;
    UpToStepBytes(out, d, i);
    assert d.bounds[..i + 1] == d.bounds[..i] + [d.bounds[i]];
    ShiftAppend(d.bounds[..i], d.bounds[i], |out|);
  }

  lemma UpToStepBytes(out: seq<u8>, d: Done, i: nat)
    requires i < |d.bounds| && Ordered(d.bounds, |d.bytes|)
    requires StartOf(d.bounds, i) <= d.bounds[i].at <= |d.bytes|
    ensures OutTo(out, d, i + 1) == OutTo(out, d, i) + Part(d.bytes, d.bounds, i)
  {
  }

  lemma UpToEnd(out: seq<u8>, bounds: seq<Boundary>, d: Done)
    requires Ordered(d.bounds, |d.bytes|) && StartOf(d.bounds, |d.bounds|) <= |d.bytes|
    ensures OutTo(out, d, |d.bounds|) + Part(d.bytes, d.bounds, |d.bounds|) == out + d.bytes
    ensures BoundsTo(out, bounds, d, |d.bounds|) == bounds + Shift(d.bounds, |out|)
  {
    assert d.bounds[..|d.bounds|] == d.bounds;
  }

  /** A member that fails its check inside a chunk fails it in the whole. */
  lemma WrongMember(h: Hasher, out: seq<u8>, bounds: seq<Boundary>, d: Done, i: nat)
    requires i < |d.bounds| && StartOf(d.bounds, i + 1) <= |d.bytes|
    requires Ordered(BoundsTo(out, bounds, d, i + 1), |OutTo(out, d, i + 1)|)
    requires !MemberOk(h, OutTo(out, d, i + 1), BoundsTo(out, bounds, d, i + 1), |bounds| + i)
    requires Ordered(bounds + Shift(d.bounds, |out|), |out + d.bytes|)
    ensures !AllOk(h, out + d.bytes, bounds + Shift(d.bounds, |out|))
  {
    hide MemberOk, Ordered;
    assert BoundsTo(out, bounds, d, i + 1) <= bounds + Shift(d.bounds, |out|);
    assert OutTo(out, d, i + 1) <= out + d.bytes;
    VerdictStays(h, OutTo(out, d, i + 1), BoundsTo(out, bounds, d, i + 1), out + d.bytes,
                 bounds + Shift(d.bounds, |out|), |bounds| + i);
  }

  /** What a chain state holds is kept in what the chain delivers. */
  lemma {:induction false} ChainFromGrows(src: Source, hints: seq<nat>, p: nat, out: seq<u8>, bounds: seq<Boundary>)
    requires Forward(src) && p <= src.bits && Ordered(bounds, |out|)
    ensures var r := ChainFrom(src, hints, p, out, bounds);
      r.Delivered? ==> out <= r.out && bounds <= r.bounds && Ordered(r.bounds, |r.out|)
    decreases |hints|
  {
    hide Forward, ChunkFrom, Resolvable, Tail, Ordered;
    if hints != [] {
      ChunkEnds(src, p, hints[0], true, [], []);
      OrderedNone();
      ChunkOrdered(src, p, hints[0], true, [], []);
      var c := ChunkAt(src, p, hints[0]);
      if c.Chunk? && Resolvable(c.cells, |Tail(out)|) {
        var more := Resolved(c.cells, Tail(out));
        OrderedConcat(bounds, |out|, c.bounds, |more|);
        if !c.final { ChainFromGrows(src, hints[1..], c.end, out + more, bounds + Shift(c.bounds, |out|)); }
      }
    }
  }

  lemma OrderedNone()
    ensures Ordered([], 0)
  {
  }

  /** A wrong member anywhere in the chain stays wrong in what is delivered. */
  lemma BadStaysBad(src: Source, hints: seq<nat>, h: Hasher, k: nat, out: seq<u8>, bounds: seq<Boundary>)
    requires Forward(src) && k <= |hints| && Ordered(bounds, |out|) && !AllOk(h, out, bounds)
    requires match ChainTo(src, hints, k)
      case Running(_, o, b) => o == out && b == bounds
      case Over(r) => r == Delivered(out, bounds)
    ensures var r := Pipeline(src, hints);
      r.Delivered? ==> Ordered(r.bounds, |r.out|) && !AllOk(h, r.out, r.bounds)
  {
    hide Forward, ChainFrom, MemberOk, Ordered, ChainTo;
    ChainToIs(src, hints, k);
    var s := ChainTo(src, hints, k);
    var r := Pipeline(src, hints);
    if s.Running? && r.Delivered? {
      ChainFromGrows(src, hints[k..], s.p, s.out, s.bounds);
      var i :| 0 <= i < |bounds| && !MemberOk(h, out, bounds, i);
      VerdictStays(h, out, bounds, r.out, r.bounds, i);
    }
  }

  function Flat(pieces: seq<seq<u8>>): seq<u8>
    decreases |pieces|
  {
    if pieces == [] then [] else Flat(pieces[..|pieces| - 1]) + pieces[|pieces| - 1]
  }

  lemma FlatNone()
    ensures Flat([]) == []
  {
  }

  lemma {:induction false} FlatHead(pieces: seq<seq<u8>>)
    requires pieces != []
    ensures Flat(pieces) == pieces[0] + Flat(pieces[1..])
    decreases |pieces|
  {
    var n := |pieces| - 1;
    if n > 0 {
      FlatHead(pieces[..n]);
      assert pieces[1..][..n - 1] == pieces[..n][1..];
      assert pieces[0] + (Flat(pieces[..n][1..]) + pieces[n]) == pieces[0] + Flat(pieces[..n][1..]) + pieces[n];
    }
  }

  lemma FlatSnoc(pieces: seq<seq<u8>>, last: seq<u8>)
    ensures Flat(pieces + [last]) == Flat(pieces) + last
  {
    assert (pieces + [last])[..|pieces|] == pieces;
  }

  /** The sink holds the first chunks of the chain, each once and in order. */
  ghost predicate SinkHolds(src: Source, hints: seq<nat>, sink: seq<seq<u8>>)
    requires Forward(src)
  {
    && |sink| <= |hints|
    && forall k | 0 <= k <= |sink| :: StateHolds(ChainTo(src, hints, k), Flat(sink[..k]))
  }

  predicate StateHolds(s: ChainState, out: seq<u8>) {
    match s
    case Running(_, o, _) => o == out
    case Over(r) => r.Delivered? && r.out == out
  }

  lemma SinkStep(src: Source, hints: seq<nat>, sink: seq<seq<u8>>, d: Done)
    requires Forward(src) && SinkHolds(src, hints, sink) && d.id == |sink| < |hints| && Advances(src, hints, d)
    requires ChainTo(src, hints, d.id).Running?
    ensures SinkHolds(src, hints, sink + [d.bytes])
    ensures Flat(sink) == ChainTo(src, hints, d.id).out
    ensures Flat(sink + [d.bytes]) == Flat(sink) + d.bytes
  {
    hide Forward, ChainTo, Flat;
    FlatSnoc(sink, d.bytes);
    var all := sink + [d.bytes];
    assert sink[..|sink|] == sink && all[..|all|] == all;
    assert StateHolds(ChainTo(src, hints, |sink|), Flat(sink[..|sink|]));
    forall k | 0 <= k <= |all| ensures StateHolds(ChainTo(src, hints, k), Flat(all[..k])) {
      if k <= |sink| {
        assert all[..k] == sink[..k];
        assert StateHolds(ChainTo(src, hints, k), Flat(sink[..k]));
      }
    }
  }

  /** What the output may make of the next chunk: when a member that ends in it is wrong it stops;
      otherwise the chunk goes out, and that was the last one or the digest covers the member in
      progress; or the consumer has gone. */
  ghost predicate OutputAnswers(src: Source, hints: seq<nat>, h: Hasher, d: Done, sink0: seq<seq<u8>>,
                                stop: Option<Ending>, cur: (nat, nat), sink: seq<seq<u8>>)
    requires Forward(src) && d.id < |hints|
  {
    var next := ChainTo(src, hints, d.id + 1);
    match stop
    case None =>
      && sink == sink0 + [d.bytes] && SinkHolds(src, hints, sink)
      && !d.final && next.Running? && Stitched(h, next.out, next.bounds, cur)
    case Some(Success) =>
      sink == sink0 + [d.bytes] && SinkHolds(src, hints, sink) && d.final && next.Over? && StateChecked(h, next)
    case Some(BadMember) => sink == sink0 && !StateChecked(h, next)
    case Some(SinkClosed) => sink == sink0 && StateChecked(h, next)
    case Some(_) => false
  }

  /** The verdict on the members of the whole output, of which `out` is all when they are right. */
  ghost predicate Judged(src: Source, hints: seq<nat>, h: Hasher, out: seq<u8>, right: bool)
    requires Forward(src)
  {
    var r := Pipeline(src, hints);
    if right then r.Delivered? && r.out == out && Checked(h, r.out, r.bounds)
    else r.Delivered? ==> Ordered(r.bounds, |r.out|) && !AllOk(h, r.out, r.bounds)
  }

  /** The next chunk in order: its members are checked, then it goes to the sink. */
  method EmitNext(ghost src: Source, ghost hints: seq<nat>, h: Hasher, d: Done, cur0: (nat, nat),
                  sink0: seq<seq<u8>>, room: bool)
      returns (stop: Option<Ending>, cur: (nat, nat), sink: seq<seq<u8>>)
    requires Forward(src) && Lawful(h) && RightDone(src, hints, h, d) && d.id == |sink0|
    requires SinkHolds(src, hints, sink0) && ChainTo(src, hints, d.id).Running?
    requires Stitched(h, ChainTo(src, hints, d.id).out, ChainTo(src, hints, d.id).bounds, cur0)
    ensures OutputAnswers(src, hints, h, d, sink0, stop, cur, sink) && (stop == Some(SinkClosed) ==> !room)
    ensures sink == sink0 || room
    ensures match stop
      case Some(Success) => Judged(src, hints, h, Flat(sink), true)
      case Some(BadMember) => Judged(src, hints, h, Flat(sink), false)
      case _ => true
  {
    hide Forward, ChainFrom, ChainTo, Flat, AllOk, Ordered, Shift, Lawful, PiecesOf, PieceIs, SinkHolds;
    ghost var s := ChainTo(src, hints, d.id);
    var ok;
    ok, cur := StitchChunk(h, d, cur0, s.out, s.bounds);
    sink := sink0;
    ChainToIs(src, hints, d.id + 1);
    if !ok {
      BadStaysBad(src, hints, h, d.id + 1, s.out + d.bytes, s.bounds + Shift(d.bounds, |s.out|));
      return Some(BadMember), cur, sink;
    }
    if !room {
      return Some(SinkClosed), cur, sink;
    }
    SinkStep(src, hints, sink, d);
    sink := sink + [d.bytes];
    stop := if d.final then Some(Success) else None;
  }

  /** What a message to the output stage may be. */
  ghost predicate RightMessage(src: Source, hints: seq<nat>, h: Hasher, m: Result<Done>)
    requires Forward(src)
  {
    match m
    case Ok(d) => RightDone(src, hints, h, d)
    case Err(_) => Pipeline(src, hints) == Failed
  }

  /** The reorder map holds right chunks under their ids, and everything received that is still to go. */
  ghost predicate Reordering(src: Source, hints: seq<nat>, h: Hasher, reorder: map<nat, Done>,
                             arrivals: seq<Result<Done>>, received: nat, nextId: nat)
    requires Forward(src)
  {
    && received <= |arrivals|
    && (forall id | id in reorder :: reorder[id].id == id && RightDone(src, hints, h, reorder[id]))
    && (forall i | 0 <= i < received ::
          arrivals[i].Ok? && (arrivals[i].value.id < nextId || arrivals[i].value.id in reorder))
  }

  lemma ReorderTake(src: Source, hints: seq<nat>, h: Hasher, reorder: map<nat, Done>,
                    arrivals: seq<Result<Done>>, received: nat, nextId: nat)
    requires Forward(src) && Reordering(src, hints, h, reorder, arrivals, received, nextId) && nextId in reorder
    ensures reorder[nextId].id == nextId < |hints| && RightDone(src, hints, h, reorder[nextId])
    ensures Reordering(src, hints, h, reorder - {nextId}, arrivals, received, nextId + 1)
  {
    hide Advances, PiecesOf;
  }

  lemma ReorderMore(src: Source, hints: seq<nat>, h: Hasher, reorder: map<nat, Done>,
                    arrivals: seq<Result<Done>>, received: nat, nextId: nat)
    requires Forward(src) && Reordering(src, hints, h, reorder, arrivals, received, nextId)
    requires forall i | 0 <= i < |arrivals| :: RightMessage(src, hints, h, arrivals[i])
    ensures received < |arrivals| && arrivals[received].Ok? ==>
      Reordering(src, hints, h, reorder[arrivals[received].value.id := arrivals[received].value],
                 arrivals, received + 1, nextId)
    ensures received == |arrivals| && nextId !in reorder ==>
      forall i | 0 <= i < |arrivals| :: arrivals[i].Ok? && arrivals[i].value.id != nextId
    ensures received < |arrivals| && arrivals[received].Err? ==> Pipeline(src, hints) == Failed
  {
    hide RightDone, ChainFrom;
    if received < |arrivals| { assert RightMessage(src, hints, h, arrivals[received]); }
  }

  /** The output stage: messages arrive in any order; chunks go to the sink once each, in id order, until
      the final one, a failed check, an error, or a consumer that has gone after taking `room` chunks. */
  method OutputStage(ghost src: Source, ghost hints: seq<nat>, h: Hasher, n: nat, arrivals: seq<Result<Done>>,
                     room: nat)
      returns (sink: seq<seq<u8>>, verdict: Ending)
    requires Forward(src) && Plausible(src, hints) && Lawful(h) && n == |hints|
    requires forall i | 0 <= i < |arrivals| :: RightMessage(src, hints, h, arrivals[i])
    ensures SinkHolds(src, hints, sink) && |sink| <= room
    ensures match verdict
      case Success => Judged(src, hints, h, Flat(sink), true)
      case BadMember => Judged(src, hints, h, Flat(sink), false)
      case StageFailed => Pipeline(src, hints) == Failed
      case ChannelGone => forall i | 0 <= i < |arrivals| :: arrivals[i].Ok? && arrivals[i].value.id != |sink|
      case NoFinalBlock => false
      case SinkClosed => |sink| == room
  {
    hide *;
    sink := [];
    var reorder: map<nat, Done> := map[];
    var cur, nextId, received := (h.of([]), 0), 0, 0;
    OutputStart(src, hints, h, arrivals);
    while nextId < n
      invariant |sink| == nextId <= n && nextId <= room && received <= |arrivals|
      invariant Reordering(src, hints, h, reorder, arrivals, received, nextId)
      invariant Midway(src, hints, h, sink, cur)
      decreases n - nextId, |arrivals| - received
    {
      ghost var entered := nextId;
      while nextId in reorder
        invariant entered <= |sink| == nextId <= n && nextId <= room
        invariant Reordering(src, hints, h, reorder, arrivals, received, nextId)
        invariant Midway(src, hints, h, sink, cur)
        decreases |reorder|
      {
        ReorderTake(src, hints, h, reorder, arrivals, received, nextId);
        var d := reorder[nextId];
        reorder := reorder - {nextId};
        MidwayOpen(src, hints, h, sink, cur);
        ghost var sink0 := sink;
        var stop;
        stop, cur, sink := EmitNext(src, hints, h, d, cur, sink, nextId < room);
        MidwayNext(src, hints, h, d, sink0, stop, cur, sink);
        if stop.Some? {
          return sink, stop.value;
        }
        nextId := nextId + 1;
      }
      if nextId >= n {
        break;
      }
      ReorderMore(src, hints, h, reorder, arrivals, received, nextId);
      MidwayOpen(src, hints, h, sink, cur);
      if received == |arrivals| {
        return sink, ChannelGone;
      }
      if arrivals[received].Err? {
        return sink, StageFailed;
      }
      reorder := reorder[arrivals[received].value.id := arrivals[received].value];
      received := received + 1;
    }
    MidwayOpen(src, hints, h, sink, cur);
    ChainEnds(src, hints);
    verdict := NoFinalBlock;
  }

  /** Between chunks: the sink holds the chain so far, and the digest state covers its open member. */
  ghost predicate Midway(src: Source, hints: seq<nat>, h: Hasher, sink: seq<seq<u8>>, cur: (nat, nat))
    requires Forward(src)
  {
    && SinkHolds(src, hints, sink)
    && var s := ChainTo(src, hints, |sink|);
       s.Running? && Stitched(h, s.out, s.bounds, cur)
  }

  lemma MidwayOpen(src: Source, hints: seq<nat>, h: Hasher, sink: seq<seq<u8>>, cur: (nat, nat))
    requires Forward(src) && Midway(src, hints, h, sink, cur)
    ensures SinkHolds(src, hints, sink) && |sink| <= |hints| && ChainTo(src, hints, |sink|).Running?
    ensures Stitched(h, ChainTo(src, hints, |sink|).out, ChainTo(src, hints, |sink|).bounds, cur)
  {
  }

  lemma MidwayNext(src: Source, hints: seq<nat>, h: Hasher, d: Done, sink0: seq<seq<u8>>, stop: Option<Ending>,
                   cur: (nat, nat), sink: seq<seq<u8>>)
    requires Forward(src) && SinkHolds(src, hints, sink0) && d.id == |sink0| < |hints|
    requires OutputAnswers(src, hints, h, d, sink0, stop, cur, sink)
    ensures SinkHolds(src, hints, sink) && |sink0| <= |sink| <= |sink0| + 1
    ensures stop.Some? && stop.value in {SinkClosed, BadMember} ==> sink == sink0
    ensures stop.Some? ==> stop.value in {Success, SinkClosed, BadMember}
    ensures stop.None? ==> Midway(src, hints, h, sink, cur) && |sink| == |sink0| + 1
  {
    hide Forward, ChainTo, SinkHolds, Stitched, StateChecked;
  }

  lemma OutputStart(src: Source, hints: seq<nat>, h: Hasher, arrivals: seq<Result<Done>>)
    requires Forward(src)
    ensures Reordering(src, hints, h, map[], arrivals, 0, 0)
    ensures Midway(src, hints, h, [], (h.of([]), 0))
  {
  }
}
