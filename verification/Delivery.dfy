/** What the threads deliver, whichever way they are scheduled: the chain's output, which is the serial
    decoder's. */
module Delivery {
  import opened Words
  import opened Lz77
  import opened Walk
  import opened Chain
  import opened Digest
  import opened Endings
  import opened Machine
  import opened Output

  /** The stages treat each chunk as the chain has it: one that fails to decode or resolve fails the
      chain; one that goes through ends it exactly when it is final, and passes its checks exactly when
      all members up to there are right. */
  ghost predicate Follows(c: Config, src: Source, hints: seq<nat>, h: Hasher)
    requires Forward(src)
  {
    c.n == |hints| && forall k: nat | k < c.n :: FollowsAt(c, src, hints, h, k)
  }

  ghost predicate FollowsAt(c: Config, src: Source, hints: seq<nat>, h: Hasher, k: nat)
    requires Forward(src) && k < |hints|
  {
    ChainTo(src, hints, k).Running? ==>
      var next := ChainTo(src, hints, k + 1);
      if c.decodes(k) && c.resolves(k) then
        && next != Over(PipelineResult.Failed)
        && (c.final(k) <==> next.Over?)
        && (StateChecked(h, ChainTo(src, hints, k)) ==> (c.checks(k) <==> StateChecked(h, next)))
      else Pipeline(src, hints) == PipelineResult.Failed
  }

  /** While the chunks go through and none is final, the chain runs on and its members are right. */
  lemma {:induction false} GoodPrefix(c: Config, src: Source, hints: seq<nat>, h: Hasher, k: nat)
    requires Forward(src) && Follows(c, src, hints, h) && k <= c.n
    requires forall i: nat | i < k :: c.decodes(i) && c.resolves(i) && c.checks(i) && !c.final(i)
    ensures ChainTo(src, hints, k).Running? && StateChecked(h, ChainTo(src, hints, k))
    decreases k
  {
    hide Forward, ChainStep, AllOk, Ordered;
    if k > 0 {
      GoodPrefix(c, src, hints, h, k - 1);
      assert FollowsAt(c, src, hints, h, k - 1);
      hide ChainTo;
    } else {
      NothingChecked(h);
    }
  }

  lemma NothingChecked(h: Hasher)
    ensures Checked(h, [], [])
  {
  }

  /** A chunk that ends a good run ends a chain whose members are all right. */
  lemma GoodDelivers(c: Config, src: Source, hints: seq<nat>, h: Hasher, f: nat)
    requires Forward(src) && Follows(c, src, hints, h) && Good(c, f)
    ensures ChainTo(src, hints, f + 1) == Over(Pipeline(src, hints))
    ensures StateChecked(h, ChainTo(src, hints, f + 1))
  {
    hide Forward, ChainStep, ChainTo, AllOk, Ordered, ChainFrom;
    GoodPrefix(c, src, hints, h, f);
    assert FollowsAt(c, src, hints, h, f);
    ChainToIs(src, hints, f + 1);
  }

  /** If the chain delivers and all members are right, some chunk ends a good run. */
  lemma {:induction false} DeliveredIsGood(c: Config, src: Source, hints: seq<nat>, h: Hasher, k: nat) returns (f: nat)
    requires Forward(src) && Follows(c, src, hints, h) && Plausible(src, hints) && k < c.n
    requires var r := Pipeline(src, hints); r.Delivered? && Checked(h, r.out, r.bounds)
    requires forall i: nat | i < k :: c.decodes(i) && c.resolves(i) && c.checks(i) && !c.final(i)
    ensures Good(c, f)
    decreases c.n - k
  {
    hide Forward, ChainStep, ChainTo, AllOk, Ordered, ChainFrom, Plausible;
    GoodPrefix(c, src, hints, h, k);
    assert FollowsAt(c, src, hints, h, k);
    ChainToIs(src, hints, k + 1);
    ChainEnds(src, hints);
    var next := ChainTo(src, hints, k + 1);
    if next.Running? { EarlierChecked(src, hints, h, k + 1); }
    if c.final(k) {
      f := k;
    } else {
      f := DeliveredIsGood(c, src, hints, h, k + 1);
    }
  }

  /** If all members are right in the end, they are right on the way. */
  lemma EarlierChecked(src: Source, hints: seq<nat>, h: Hasher, k: nat)
    requires Forward(src) && k <= |hints| && ChainTo(src, hints, k).Running?
    requires var r := Pipeline(src, hints); r.Delivered? && Checked(h, r.out, r.bounds)
    ensures StateChecked(h, ChainTo(src, hints, k))
  {
    hide Forward, ChainStep, ChainTo, ChainFrom, Ordered, MemberOk;
    ChainToIs(src, hints, k);
    ChainOrdered(src, hints, k);
    var s := ChainTo(src, hints, k);
    var r := Pipeline(src, hints);
    ChainFromGrows(src, hints[k..], s.p, s.out, s.bounds);
    forall i | 0 <= i < |s.bounds| ensures MemberOk(h, s.out, s.bounds, i) {
      VerdictStays(h, s.out, s.bounds, r.out, r.bounds, i);
    }
  }

  lemma {:induction false} ChainOrdered(src: Source, hints: seq<nat>, k: nat)
    requires Forward(src) && k <= |hints| && ChainTo(src, hints, k).Running?
    ensures Ordered(ChainTo(src, hints, k).bounds, |ChainTo(src, hints, k).out|)
    decreases k
  {
    hide Forward, ChunkFrom, Resolvable, Tail, Ordered;
    OrderedNone();
    if k > 0 {
      ChainOrdered(src, hints, k - 1);
      var s := ChainTo(src, hints, k - 1);
      ChainToIs(src, hints, k - 1);
      ChunkOrdered(src, s.p, hints[k - 1], true, [], []);
      var c := ChunkAt(src, s.p, hints[k - 1]);
      OrderedConcat(s.bounds, |s.out|, c.bounds, |c.cells|);
    }
  }

  /** Some chunk ends a good run exactly when the chain delivers and every member is right. */
  lemma GoodExactly(c: Config, src: Source, hints: seq<nat>, h: Hasher)
    requires Forward(src) && Follows(c, src, hints, h) && Plausible(src, hints)
    ensures var r := Pipeline(src, hints);
      (exists f :: Good(c, f)) <==> r.Delivered? && Checked(h, r.out, r.bounds)
  {
    hide Forward, ChainTo, ChainFrom, Good, Checked;
    var r := Pipeline(src, hints);
    if f: nat :| Good(c, f) {
      GoodDelivers(c, src, hints, h, f);
    }
    if r.Delivered? && Checked(h, r.out, r.bounds) {
      PlausibleSome(src, hints);
      var f := DeliveredIsGood(c, src, hints, h, 0);
    }
  }

  lemma PlausibleSome(src: Source, hints: seq<nat>)
    requires Plausible(src, hints)
    ensures |hints| > 0
  {
  }

  /** A full run of the machine whose verdicts follow the chain, with a consumer that keeps receiving: it
      succeeds exactly when the chain delivers with all members right, and the chunks it sent are then the
      chain's, up to the last. */
  lemma FullRunIsChain(c: Config, src: Source, hints: seq<nat>, h: Hasher, steps: seq<Action>)
    requires Sensible(c) && Forward(src) && Follows(c, src, hints, h) && Plausible(src, hints)
    requires Run(c, Start(c), steps).Some? && !CanStep(c, Run(c, Start(c), steps).value)
    requires Run(c, Start(c), steps).value.ending != Some(SinkClosed)
    ensures var s := Run(c, Start(c), steps).value;
      var r := Pipeline(src, hints);
      && Quiet(s)
      && (s.ending == Some(Success) <==> r.Delivered? && Checked(h, r.out, r.bounds))
      && (s.ending == Some(Success) ==> |s.sink| <= |hints| && ChainTo(src, hints, |s.sink|) == Over(r))
  {
    hide Forward, ChainTo, ChainFrom, Good, Checked, Start, Run, CanStep, Quiet, Ids, Follows, Sensible;
    GoodExactly(c, src, hints, h);
    EveryFullRun(c, steps);
    var s := Run(c, Start(c), steps).value;
    if s.ending == Some(Success) {
      SuccessHasGood(c, steps);
      var f: nat :| Good(c, f);
      assert s.sink == Ids(f + 1);
      GoodDelivers(c, src, hints, h, f);
      GoodInRange(c, f);
      FollowsLength(c, src, hints, h);
    }
  }

  lemma GoodInRange(c: Config, f: nat)
    requires Good(c, f)
    ensures f < c.n && |Ids(f + 1)| == f + 1
  {
  }

  lemma FollowsLength(c: Config, src: Source, hints: seq<nat>, h: Hasher)
    requires Forward(src) && Follows(c, src, hints, h)
    ensures c.n == |hints|
  {
  }

  lemma SuccessHasGood(c: Config, steps: seq<Action>)
    requires Sensible(c) && Run(c, Start(c), steps).Some?
    requires Run(c, Start(c), steps).value.ending == Some(Success)
    ensures exists f :: Good(c, f)
  {
    hide Left, Start, Conserved, Staffed, Accounts, Truthful, Good;
    InvStart(c);
    RunKeeps(c, Start(c), steps);
    SuccessIsGood(c, Run(c, Start(c), steps).value);
  }
}
