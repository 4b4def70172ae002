/** The threads of the parallel decoder as a step machine (pipeline.rs): dispatch, decode workers,
    stage A, resolvers and output, joined by bounded channels, two reorder maps and the in-flight cap.
    Only chunk ids move; what a chunk holds is the chain's business. */
module Machine {
  import opened Lz77
  import opened Endings

  /** n chunks; thread counts; room in every channel; the in-flight limit; and what becomes of each chunk:
      whether it decodes from where the chain stands, resolves, ends the last member, and passes its
      members' checks. */
  datatype Config = Config(n: nat, workers: nat, resolvers: nat, room: nat, max: nat,
                           decodes: nat -> bool, resolves: nat -> bool, final: nat -> bool, checks: nat -> bool)

  ghost predicate Sensible(c: Config) {
    c.workers > 0 && c.resolvers > 0 && c.room > 0 && c.max > 0
  }

  datatype Dispatcher = Idle | Holding | Gone

  datatype Message = Chunk(id: nat) | Error

  datatype State = State(
    dispatcher: Dispatcher, next: nat,
    inFlight: nat, acquired: nat, released: nat,
    work: seq<nat>, idleWorkers: nat, busy: multiset<nat>,
    results: seq<nat>,
    stageA: bool, reorderA: multiset<nat>, nextA: nat,
    jobs: seq<nat>, idleResolvers: nat, resolving: multiset<nat>,
    done: seq<Message>,
    ending: Option<Ending>, dropped: bool, shutdown: bool, reorderB: multiset<nat>, nextB: nat, sink: seq<nat>)

  function Start(c: Config): State {
    State(Idle, 0, 0, 0, 0, [], c.workers, multiset{}, [], true, multiset{}, 0,
          [], c.resolvers, multiset{}, [], None, false, false, multiset{}, 0, [])
  }

  predicate WorkersAlive(s: State) {
    s.idleWorkers + |s.busy| > 0
  }

  predicate ResolversAlive(s: State) {
    s.idleResolvers + |s.resolving| > 0
  }

  // Steps, thread by thread

  /** Dispatch: claim a slot, then send the item; or find the cap shut down, or the workers gone. */
  datatype DispatchStep = Acquire | Refused | Send | SendFails | AllSent

  predicate CanDispatch(c: Config, s: State, a: DispatchStep) {
    match a
    case Acquire => s.dispatcher == Idle && s.next < c.n && !s.shutdown && s.inFlight < c.max
    case Refused => s.dispatcher == Idle && s.next < c.n && s.shutdown
    case Send => s.dispatcher == Holding && |s.work| < c.room && WorkersAlive(s)
    case SendFails => s.dispatcher == Holding && !WorkersAlive(s)
    case AllSent => s.dispatcher == Idle && s.next >= c.n
  }

  function Dispatched(s: State, a: DispatchStep): State {
    match a
    case Acquire => s.(dispatcher := Holding, inFlight := s.inFlight + 1, acquired := s.acquired + 1)
    case Send => s.(dispatcher := Idle, work := s.work + [s.next], next := s.next + 1)
    case _ => s.(dispatcher := Gone)
  }

  /** A worker: take an item, decode it, report; leave when there is nothing more, or nobody to tell. */
  datatype WorkStep = Take | WorkerEnds | Report(id: nat) | ReportFails(id: nat)

  predicate CanWork(c: Config, s: State, a: WorkStep) {
    match a
    case Take => s.idleWorkers > 0 && s.work != []
    case WorkerEnds => s.idleWorkers > 0 && s.work == [] && s.dispatcher == Gone
    case Report(id) => id in s.busy && |s.results| < c.room && s.stageA
    case ReportFails(id) => id in s.busy && !s.stageA
  }

  function Worked(c: Config, s: State, a: WorkStep): State
    requires CanWork(c, s, a)
  {
    match a
    case Take =>
      s.(work := s.work[1..], idleWorkers := s.idleWorkers - 1, busy := s.busy + multiset{s.work[0]})
    case WorkerEnds => s.(idleWorkers := s.idleWorkers - 1)
    case Report(id) =>
      s.(busy := s.busy - multiset{id}, idleWorkers := s.idleWorkers + 1, results := s.results + [id])
    case ReportFails(id) => s.(busy := s.busy - multiset{id})
  }

  /** Stage A: receive and reorder; pass the next chunk on, accepted or decoded again; or give up. */
  datatype StageStep = Receive | ReceiveFails | Pass | PassFails | GiveUp

  predicate CanStage(c: Config, s: State, a: StageStep) {
    && s.stageA
    && match a
       case Receive => s.nextA !in s.reorderA && s.results != []
       case ReceiveFails => s.nextA !in s.reorderA && s.results == [] && !WorkersAlive(s) && CanComplain(c, s)
       case Pass => s.nextA in s.reorderA && c.decodes(s.nextA) && |s.jobs| < c.room && ResolversAlive(s)
       case PassFails => s.nextA in s.reorderA && c.decodes(s.nextA) && !ResolversAlive(s)
       case GiveUp => s.nextA in s.reorderA && !c.decodes(s.nextA) && CanComplain(c, s)
  }

  /** There is room for an error message, or the output has dropped the channel and none is kept. */
  predicate CanComplain(c: Config, s: State) {
    s.dropped || |s.done| < c.room
  }

  function Complain(s: State): State {
    if !s.dropped then s.(done := s.done + [Error]) else s
  }

  function Staged(c: Config, s: State, a: StageStep): State
    requires CanStage(c, s, a)
  {
    match a
    case Receive => s.(results := s.results[1..], reorderA := s.reorderA + multiset{s.results[0]})
    case Pass =>
      s.(reorderA := s.reorderA - multiset{s.nextA}, jobs := s.jobs + [s.nextA], nextA := s.nextA + 1,
         stageA := !c.final(s.nextA))
    case PassFails => s.(stageA := false)
    case _ => Complain(s.(stageA := false))
  }

  /** A resolver: take a job, finish it; leave when there is nothing more, or nobody to tell. */
  datatype ResolverStep = TakeJob | ResolverEnds | Finish(id: nat) | FinishFails(id: nat)

  predicate CanResolve(c: Config, s: State, a: ResolverStep) {
    match a
    case TakeJob => s.idleResolvers > 0 && s.jobs != []
    case ResolverEnds => s.idleResolvers > 0 && s.jobs == [] && !s.stageA
    case Finish(id) => id in s.resolving && !s.dropped && |s.done| < c.room
    case FinishFails(id) => id in s.resolving && s.dropped
  }

  function ResolvedTo(c: Config, s: State, a: ResolverStep): State
    requires CanResolve(c, s, a)
  {
    match a
    case TakeJob =>
      s.(jobs := s.jobs[1..], idleResolvers := s.idleResolvers - 1, resolving := s.resolving + multiset{s.jobs[0]})
    case ResolverEnds => s.(idleResolvers := s.idleResolvers - 1)
    case Finish(id) =>
      s.(resolving := s.resolving - multiset{id}, idleResolvers := s.idleResolvers + 1,
         done := s.done + [if c.resolves(id) then Chunk(id) else Error])
    case FinishFails(id) => s.(resolving := s.resolving - multiset{id})
  }

  /** Output: collect and reorder; check and emit the next chunk and free its slot; stop, drop the channel
      of the resolvers' messages, which until then still takes some, and shut the cap down. */
  datatype OutputStep = Collect | CollectFails | Emit | EmitFails | OutputEnds | Drop | Shutdown

  predicate CanOutput(c: Config, s: State, a: OutputStep) {
    match a
    case Collect => s.ending.None? && s.nextB < c.n && s.nextB !in s.reorderB && s.done != []
    case CollectFails =>
      s.ending.None? && s.nextB < c.n && s.nextB !in s.reorderB && s.done == [] && !s.stageA && !ResolversAlive(s)
    case Emit => s.ending.None? && s.nextB in s.reorderB
    case EmitFails => s.ending.None? && s.nextB in s.reorderB && c.checks(s.nextB)
    case OutputEnds => s.ending.None? && s.nextB >= c.n
    case Drop => s.ending.Some? && !s.dropped
    case Shutdown => s.dropped && !s.shutdown
  }

  function Release(s: State): State {
    s.(inFlight := if s.inFlight > 0 then s.inFlight - 1 else 0, released := s.released + 1)
  }

  function OutputTo(c: Config, s: State, a: OutputStep): State
    requires CanOutput(c, s, a)
  {
    match a
    case Collect =>
      if s.done[0].Error? then s.(done := s.done[1..], ending := Some(StageFailed))
      else s.(done := s.done[1..], reorderB := s.reorderB + multiset{s.done[0].id})
    case CollectFails => s.(ending := Some(ChannelGone))
    case Emit =>
      if !c.checks(s.nextB) then s.(ending := Some(BadMember))
      else
        Release(s).(reorderB := s.reorderB - multiset{s.nextB}, sink := s.sink + [s.nextB], nextB := s.nextB + 1,
                    ending := if c.final(s.nextB) then Some(Success) else None)
    case EmitFails => Release(s).(ending := Some(SinkClosed))
    case OutputEnds => s.(ending := Some(NoFinalBlock))
    case Drop => s.(dropped := true)
    case Shutdown => s.(shutdown := true)
  }

  datatype Action =
    | Dispatch(d: DispatchStep) | Work(w: WorkStep) | Stage(a: StageStep) | Resolve(r: ResolverStep)
    | Output(o: OutputStep)

  predicate Enabled(c: Config, s: State, a: Action) {
    match a
    case Dispatch(d) => CanDispatch(c, s, d)
    case Work(w) => CanWork(c, s, w)
    case Stage(g) => CanStage(c, s, g)
    case Resolve(r) => CanResolve(c, s, r)
    case Output(o) => CanOutput(c, s, o)
  }

  function After(c: Config, s: State, a: Action): State
    requires Enabled(c, s, a)
  {
    match a
    case Dispatch(d) => Dispatched(s, d)
    case Work(w) => Worked(c, s, w)
    case Stage(g) => Staged(c, s, g)
    case Resolve(r) => ResolvedTo(c, s, r)
    case Output(o) => OutputTo(c, s, o)
  }

  // What every step keeps

  /** The ids from a up to b, each once. */
  function Range(a: nat, b: nat): multiset<nat>
    decreases b
  {
    if a >= b then multiset{} else Range(a, b - 1) + multiset{b - 1}
  }

  function Upstream(s: State): multiset<nat> {
    multiset(s.work) + s.busy + multiset(s.results) + s.reorderA
  }

  /** The ids of the messages, errors aside. */
  function IdsOf(ms: seq<Message>): multiset<nat>
    decreases |ms|
  {
    if ms == [] then multiset{}
    else (if ms[0].Error? then multiset{} else multiset{ms[0].id}) + IdsOf(ms[1..])
  }

  function Downstream(s: State): multiset<nat> {
    multiset(s.jobs) + s.resolving + IdsOf(s.done) + s.reorderB
  }

  function Held(s: State): nat {
    if s.dispatcher == Holding then 1 else 0
  }

  /** Chunks reach the sink once each and in order; claimed slots are counted exactly and stay under the
      limit; and while it runs the output keeps its channel. */
  ghost predicate Accounts(c: Config, s: State) {
    && s.nextB <= s.nextA <= s.next <= c.n
    && s.sink == Ids(s.nextB)
    && (s.dispatcher == Holding ==> s.next < c.n)
    && s.next + Held(s) <= s.acquired <= s.next + (if s.dispatcher == Idle then 0 else 1)
    && s.released == s.nextB + (if s.ending == Some(SinkClosed) then 1 else 0)
    && s.inFlight == s.acquired - s.released
    && s.inFlight <= c.max
    && (s.dropped ==> s.ending.Some?)
  }

  function Ids(n: nat): (r: seq<nat>)
    ensures |r| == n && forall i | 0 <= i < n :: r[i] == i
  {
    seq(n, i => i)
  }

  /** Between dispatch and stage A nothing is lost while stage A lives, and nothing is ever doubled. */
  ghost predicate UpstreamWhole(s: State) {
    && (s.stageA ==> Upstream(s) == Range(s.nextA, s.next))
    && Upstream(s) <= Range(s.nextA, s.next)
  }

  /** Between stage A and the sink nothing is lost while the output runs and no error is on its way, and
      nothing is ever doubled. */
  ghost predicate DownstreamWhole(s: State) {
    && (s.ending.None? && Error !in s.done ==> Downstream(s) == Range(s.nextB, s.nextA))
    && Downstream(s) <= Range(s.nextB, s.nextA)
  }

  /** No chunk is lost or doubled on its way: between dispatch and stage A while that lives, and between
      stage A and the output while that runs. */
  ghost predicate Conserved(s: State) {
    UpstreamWhole(s) && DownstreamWhole(s)
  }

  /** Who may have left, and why. */
  ghost predicate Staffed(c: Config, s: State) {
    && s.idleWorkers + |s.busy| <= c.workers && s.idleResolvers + |s.resolving| <= c.resolvers
    && (s.stageA ==> s.idleWorkers + |s.busy| == c.workers || (s.work == [] && s.dispatcher == Gone))
    && (s.stageA && !s.shutdown && s.dispatcher == Gone ==> s.next == c.n)
    && (s.shutdown ==> s.dropped)
    && (s.ending.None? ==> s.idleResolvers + |s.resolving| == c.resolvers || (!s.stageA && s.jobs == []))
    && (s.ending.None? && !s.stageA && Error !in s.done ==> s.nextA > 0 && c.final(s.nextA - 1))
  }

  /** Chunk f ends the run, and it and all before it go through. */
  ghost predicate Good(c: Config, f: nat) {
    && f < c.n && c.final(f)
    && (forall i: nat | i < f :: !c.final(i))
    && (forall i: nat | i <= f :: c.decodes(i) && c.resolves(i) && c.checks(i))
  }

  ghost predicate Hopeless(c: Config) {
    forall f: nat :: !Good(c, f)
  }

  /** What is known of chunks that have got somewhere ... */
  ghost predicate PassedStageA(c: Config, s: State) {
    && (forall i: nat | i < s.nextA :: c.decodes(i))
    && (forall i: nat | i + 1 < s.nextA :: !c.final(i))
    && (s.stageA && s.nextA > 0 ==> !c.final(s.nextA - 1))
  }

  ghost predicate PassedResolvers(c: Config, s: State) {
    && (forall i | i in IdsOf(s.done) :: c.resolves(i))
    && (forall i | i in s.reorderB :: c.resolves(i))
    && (forall i: nat | i < s.nextB :: c.resolves(i) && c.checks(i))
  }

  /** ... and of how the run ended. */
  ghost predicate EndedRight(c: Config, s: State) {
    && (s.ending.None? && s.nextB > 0 ==> !c.final(s.nextB - 1))
    && (s.ending.None? && Error in s.done ==> Hopeless(c))
    && (s.ending == Some(Success) ==> s.nextB > 0 && c.final(s.nextB - 1))
    && s.ending != Some(ChannelGone)
    && (s.ending == Some(BadMember) || s.ending == Some(StageFailed) || s.ending == Some(NoFinalBlock) ==> Hopeless(c))
  }

  ghost predicate Truthful(c: Config, s: State) {
    PassedStageA(c, s) && PassedResolvers(c, s) && EndedRight(c, s)
  }

  ghost predicate Inv(c: Config, s: State) {
    Accounts(c, s) && Conserved(s) && Staffed(c, s) && Truthful(c, s)
  }

  // Ranges and multisets

  lemma {:induction false} RangeHas(a: nat, b: nat, x: nat)
    ensures Range(a, b)[x] == if a <= x < b then 1 else 0
    decreases b
  {
    if a < b { RangeHas(a, b - 1, x); }
  }

  lemma RangeFirst(a: nat, b: nat)
    requires a < b
    ensures Range(a, b) == multiset{a} + Range(a + 1, b)
  {
    forall x: nat ensures Range(a, b)[x] == (multiset{a} + Range(a + 1, b))[x] {
      RangeHas(a, b, x);
      RangeHas(a + 1, b, x);
    }
  }

  lemma RangeLast(a: nat, b: nat)
    requires a <= b
    ensures Range(a, b + 1) == Range(a, b) + multiset{b}
  {
  }

  lemma HeadTail<T>(q: seq<T>)
    requires q != []
    ensures multiset(q) == multiset{q[0]} + multiset(q[1..])
  {
    assert q == [q[0]] + q[1..];
  }

  lemma {:induction false} IdsOfSnoc(ms: seq<Message>, m: Message)
    ensures IdsOf(ms + [m]) == IdsOf(ms) + (if m.Error? then multiset{} else multiset{m.id})
  {
    if ms == [] {
      assert ms + [m] == [m] && [m][1..] == [];
    } else {
      assert (ms + [m])[1..] == ms[1..] + [m];
      IdsOfSnoc(ms[1..], m);
    }
  }

  // Preservation

  /** A chunk in stage A's hands has been sent, and one in the output's hands has passed stage A. */
  lemma InHand(s: State)
    requires Conserved(s)
    ensures s.nextA in s.reorderA ==> s.nextA < s.next
    ensures s.nextB in s.reorderB ==> s.nextB < s.nextA
  {
    hide Range, IdsOf;
    RangeHas(s.nextA, s.next, s.nextA);
    RangeHas(s.nextB, s.nextA, s.nextB);
    assert Upstream(s)[s.nextA] <= Range(s.nextA, s.next)[s.nextA];
    assert Downstream(s)[s.nextB] <= Range(s.nextB, s.nextA)[s.nextB];
  }

  lemma IdsNext(n: nat)
    ensures Ids(n) + [n] == Ids(n + 1)
  {
  }

  lemma AccountsDispatch(c: Config, s: State, d: DispatchStep)
    requires Accounts(c, s) && CanDispatch(c, s, d)
    ensures Accounts(c, Dispatched(s, d))
  {
    hide Ids;
  }

  lemma AccountsWork(c: Config, s: State, w: WorkStep)
    requires Accounts(c, s) && CanWork(c, s, w)
    ensures Accounts(c, Worked(c, s, w))
  {
    hide Ids;
  }

  lemma AccountsStage(c: Config, s: State, g: StageStep)
    requires Accounts(c, s) && CanStage(c, s, g) && (s.nextA in s.reorderA ==> s.nextA < s.next)
    ensures Accounts(c, Staged(c, s, g))
  {
    hide Ids;
  }

  lemma AccountsResolve(c: Config, s: State, r: ResolverStep)
    requires Accounts(c, s) && CanResolve(c, s, r)
    ensures Accounts(c, ResolvedTo(c, s, r))
  {
    hide Ids;
  }

  lemma AccountsEmit(c: Config, s: State)
    requires Accounts(c, s) && CanOutput(c, s, Emit) && s.nextB < s.nextA
    ensures Accounts(c, OutputTo(c, s, Emit))
  {
    IdsNext(s.nextB);
    hide Ids;
  }

  lemma AccountsEmitFails(c: Config, s: State)
    requires Accounts(c, s) && CanOutput(c, s, EmitFails) && s.nextB < s.nextA
    ensures Accounts(c, OutputTo(c, s, EmitFails))
  {
    hide Ids;
  }

  lemma AccountsCollect(c: Config, s: State)
    requires Accounts(c, s) && CanOutput(c, s, Collect)
    ensures Accounts(c, OutputTo(c, s, Collect))
  {
    hide Ids;
  }

  lemma AccountsOutput(c: Config, s: State, o: OutputStep)
    requires Accounts(c, s) && CanOutput(c, s, o) && (s.nextB in s.reorderB ==> s.nextB < s.nextA)
    ensures Accounts(c, OutputTo(c, s, o))
  {
    hide Ids;
    match o {
      case Emit => AccountsEmit(c, s);
      case EmitFails => AccountsEmitFails(c, s);
      case Collect => AccountsCollect(c, s);
      case _ =>
    }
  }

  // Conservation

  lemma Grown(m: multiset<nat>, r: multiset<nat>, x: nat)
    requires m <= r
    ensures m + multiset{x} <= r + multiset{x}
  {
  }

  lemma Shrunk(m: multiset<nat>, r: multiset<nat>, x: nat)
    ensures m + multiset{x} <= multiset{x} + r ==> m <= r
    ensures m + multiset{x} == multiset{x} + r ==> m == r
  {
    if m + multiset{x} <= multiset{x} + r {
      forall y: nat ensures m[y] <= r[y] {
        assert (m + multiset{x})[y] <= (multiset{x} + r)[y];
      }
    }
    if m + multiset{x} == multiset{x} + r {
      forall y: nat ensures m[y] == r[y] {
        assert (m + multiset{x})[y] == (multiset{x} + r)[y];
      }
    }
  }

  lemma UpstreamSame(s: State, t: State)
    requires UpstreamWhole(s)
    requires t.work == s.work && t.busy == s.busy && t.results == s.results && t.reorderA == s.reorderA
    requires t.stageA == s.stageA && t.nextA == s.nextA && t.next == s.next
    ensures UpstreamWhole(t)
  {
    hide Range;
  }

  lemma DownstreamSame(s: State, t: State)
    requires DownstreamWhole(s)
    requires t.jobs == s.jobs && t.resolving == s.resolving && t.done == s.done && t.reorderB == s.reorderB
    requires t.ending == s.ending && t.nextA == s.nextA && t.nextB == s.nextB
    ensures DownstreamWhole(t)
  {
    hide Range, IdsOf;
  }

  lemma UpstreamSend(s: State)
    ensures Upstream(Dispatched(s, Send)) == Upstream(s) + multiset{s.next}
  {
  }

  lemma UpstreamDispatch(c: Config, s: State, d: DispatchStep)
    requires UpstreamWhole(s) && CanDispatch(c, s, d) && s.nextA <= s.next
    ensures UpstreamWhole(Dispatched(s, d))
  {
    if d == Send {
      UpstreamSent(s);
    } else {
      hide UpstreamWhole;
      UpstreamSame(s, Dispatched(s, d));
    }
  }

  lemma UpstreamSent(s: State)
    requires UpstreamWhole(s) && s.nextA <= s.next
    ensures UpstreamWhole(Dispatched(s, Send))
  {
    hide Range, Upstream;
    UpstreamSend(s);
    RangeLast(s.nextA, s.next);
    Grown(Upstream(s), Range(s.nextA, s.next), s.next);
  }

  lemma UpstreamTake(c: Config, s: State)
    requires CanWork(c, s, Take)
    ensures Upstream(Worked(c, s, Take)) == Upstream(s)
  {
    HeadTail(s.work);
  }

  lemma UpstreamReport(c: Config, s: State, id: nat)
    requires CanWork(c, s, Report(id))
    ensures Upstream(Worked(c, s, Report(id))) == Upstream(s)
  {
  }

  lemma UpstreamLost(c: Config, s: State, id: nat)
    requires CanWork(c, s, ReportFails(id))
    ensures Upstream(Worked(c, s, ReportFails(id))) <= Upstream(s)
  {
  }

  lemma UpstreamWork(c: Config, s: State, w: WorkStep)
    requires UpstreamWhole(s) && CanWork(c, s, w)
    ensures UpstreamWhole(Worked(c, s, w))
  {
    match w {
      case Take => UpstreamTake(c, s);
      case Report(id) => UpstreamReport(c, s, id);
      case ReportFails(id) => UpstreamLost(c, s, id);
      case WorkerEnds => UpstreamEnd(c, s);
    }
    hide Range, Upstream;
  }

  lemma UpstreamEnd(c: Config, s: State)
    requires CanWork(c, s, WorkerEnds)
    ensures Upstream(Worked(c, s, WorkerEnds)) == Upstream(s)
  {
  }

  lemma UpstreamPass(c: Config, s: State)
    requires CanStage(c, s, Pass)
    ensures Upstream(Staged(c, s, Pass)) + multiset{s.nextA} == Upstream(s)
  {
  }

  lemma UpstreamReceive(c: Config, s: State)
    requires CanStage(c, s, Receive)
    ensures Upstream(Staged(c, s, Receive)) == Upstream(s)
  {
    HeadTail(s.results);
  }

  lemma UpstreamStage(c: Config, s: State, g: StageStep)
    requires UpstreamWhole(s) && CanStage(c, s, g) && s.nextA <= s.next
    requires s.nextA in s.reorderA ==> s.nextA < s.next
    ensures UpstreamWhole(Staged(c, s, g))
  {
    if g == Pass {
      UpstreamPassed(c, s);
    } else {
      if g == Receive { UpstreamReceive(c, s); }
      hide Range;
    }
  }

  lemma UpstreamPassed(c: Config, s: State)
    requires UpstreamWhole(s) && CanStage(c, s, Pass) && s.nextA < s.next
    ensures UpstreamWhole(Staged(c, s, Pass))
  {
    hide Range, Upstream;
    UpstreamPass(c, s);
    RangeFirst(s.nextA, s.next);
    Shrunk(Upstream(Staged(c, s, Pass)), Range(s.nextA + 1, s.next), s.nextA);
  }

  lemma DownstreamPass(c: Config, s: State)
    requires CanStage(c, s, Pass)
    ensures Downstream(Staged(c, s, Pass)) == Downstream(s) + multiset{s.nextA}
  {
    hide IdsOf;
  }

  lemma DownstreamStage(c: Config, s: State, g: StageStep)
    requires DownstreamWhole(s) && CanStage(c, s, g) && s.nextB <= s.nextA
    ensures DownstreamWhole(Staged(c, s, g))
  {
    if g == Pass {
      DownstreamPassed(c, s);
    } else if g == ReceiveFails || g == GiveUp {
      DownstreamComplains(s, s.(stageA := false));
    } else {
      hide DownstreamWhole;
      DownstreamSame(s, Staged(c, s, g));
    }
  }

  lemma DownstreamPassed(c: Config, s: State)
    requires DownstreamWhole(s) && CanStage(c, s, Pass) && s.nextB <= s.nextA
    ensures DownstreamWhole(Staged(c, s, Pass))
  {
    hide Range, Downstream;
    DownstreamPass(c, s);
    RangeLast(s.nextB, s.nextA);
    Grown(Downstream(s), Range(s.nextB, s.nextA), s.nextA);
  }

  lemma DownstreamComplains(s: State, t: State)
    requires DownstreamWhole(s) && t == s.(stageA := false)
    ensures DownstreamWhole(Complain(t))
  {
    IdsOfSnoc(s.done, Error);
    hide Range, IdsOf;
    assert Downstream(Complain(t)) == Downstream(s);
  }

  lemma DownstreamTakeJob(c: Config, s: State)
    requires CanResolve(c, s, TakeJob)
    ensures Downstream(ResolvedTo(c, s, TakeJob)) == Downstream(s)
  {
    HeadTail(s.jobs);
    hide IdsOf;
  }

  lemma DownstreamFinish(c: Config, s: State, id: nat)
    requires CanResolve(c, s, Finish(id))
    ensures var t := ResolvedTo(c, s, Finish(id));
      if c.resolves(id) then Downstream(t) == Downstream(s)
      else Downstream(t) + multiset{id} == Downstream(s) && Error in t.done
  {
    IdsOfSnoc(s.done, if c.resolves(id) then Chunk(id) else Error);
    hide IdsOf;
  }

  lemma DownstreamResolve(c: Config, s: State, r: ResolverStep)
    requires DownstreamWhole(s) && CanResolve(c, s, r) && (s.dropped ==> s.ending.Some?)
    ensures DownstreamWhole(ResolvedTo(c, s, r))
  {
    match r {
      case TakeJob =>
        DownstreamTakeJob(c, s);
        hide Range, Downstream;
        assert DownstreamWhole(ResolvedTo(c, s, r));
      case ResolverEnds =>
        hide DownstreamWhole;
        DownstreamSame(s, ResolvedTo(c, s, r));
      case Finish(id) =>
        DownstreamFinished(c, s, id);
      case FinishFails(id) =>
        hide Range, IdsOf;
        assert Downstream(ResolvedTo(c, s, r)) <= Downstream(s);
    }
  }

  lemma DownstreamFinished(c: Config, s: State, id: nat)
    requires DownstreamWhole(s) && CanResolve(c, s, Finish(id))
    ensures DownstreamWhole(ResolvedTo(c, s, Finish(id)))
  {
    hide Range, Downstream;
    DownstreamFinish(c, s, id);
  }

  lemma DownstreamEmit(c: Config, s: State)
    requires CanOutput(c, s, Emit) && c.checks(s.nextB)
    ensures Downstream(OutputTo(c, s, Emit)) + multiset{s.nextB} == Downstream(s)
  {
    hide IdsOf;
  }

  lemma DownstreamCollect(c: Config, s: State)
    requires CanOutput(c, s, Collect)
    ensures Downstream(OutputTo(c, s, Collect)) == Downstream(s)
    ensures Error in OutputTo(c, s, Collect).done ==> Error in s.done
    ensures OutputTo(c, s, Collect).ending.None? && Error in s.done ==> Error in OutputTo(c, s, Collect).done
  {
    IdsOfHead(s.done);
    hide IdsOf;
  }

  lemma DownstreamOutput(c: Config, s: State, o: OutputStep)
    requires DownstreamWhole(s) && CanOutput(c, s, o)
    requires s.nextB in s.reorderB ==> s.nextB < s.nextA
    ensures DownstreamWhole(OutputTo(c, s, o))
  {
    if o == Emit && c.checks(s.nextB) {
      DownstreamEmitted(c, s);
    } else if o == Collect {
      DownstreamCollected(c, s);
    } else {
      hide Range, IdsOf;
    }
  }

  lemma DownstreamEmitted(c: Config, s: State)
    requires DownstreamWhole(s) && CanOutput(c, s, Emit) && c.checks(s.nextB) && s.nextB < s.nextA
    ensures DownstreamWhole(OutputTo(c, s, Emit))
  {
    hide Range, Downstream;
    DownstreamEmit(c, s);
    RangeFirst(s.nextB, s.nextA);
    Shrunk(Downstream(OutputTo(c, s, Emit)), Range(s.nextB + 1, s.nextA), s.nextB);
  }

  lemma DownstreamCollected(c: Config, s: State)
    requires DownstreamWhole(s) && CanOutput(c, s, Collect)
    ensures DownstreamWhole(OutputTo(c, s, Collect))
  {
    hide Range, Downstream;
    DownstreamCollect(c, s);
  }

  lemma IdsOfHead(ms: seq<Message>)
    requires ms != []
    ensures IdsOf(ms) == (if ms[0].Error? then multiset{} else multiset{ms[0].id}) + IdsOf(ms[1..])
    ensures Error in ms <==> ms[0].Error? || Error in ms[1..]
  {
    assert ms == [ms[0]] + ms[1..];
  }

  lemma UpstreamResolve(c: Config, s: State, r: ResolverStep)
    requires UpstreamWhole(s) && CanResolve(c, s, r)
    ensures UpstreamWhole(ResolvedTo(c, s, r))
  {
    hide UpstreamWhole;
    UpstreamSame(s, ResolvedTo(c, s, r));
  }

  lemma UpstreamOutput(c: Config, s: State, o: OutputStep)
    requires UpstreamWhole(s) && CanOutput(c, s, o)
    ensures UpstreamWhole(OutputTo(c, s, o))
  {
    hide UpstreamWhole;
    match o {
      case Emit => UpstreamSame(s, OutputTo(c, s, Emit));
      case _ => UpstreamSame(s, OutputTo(c, s, o));
    }
  }

  lemma UpstreamKept(c: Config, s: State, a: Action)
    requires s.nextA <= s.next && UpstreamWhole(s) && Enabled(c, s, a)
    requires s.nextA in s.reorderA ==> s.nextA < s.next
    ensures UpstreamWhole(After(c, s, a))
  {
    hide UpstreamWhole, CanDispatch, CanWork, CanStage, CanResolve, CanOutput, Dispatched, Worked, Staged, ResolvedTo,
      OutputTo;
    match a {
      case Dispatch(d) => UpstreamDispatch(c, s, d);
      case Work(w) => UpstreamWork(c, s, w);
      case Stage(g) => UpstreamStage(c, s, g);
      case Resolve(r) => UpstreamResolve(c, s, r);
      case Output(o) => UpstreamOutput(c, s, o);
    }
  }

  lemma DownstreamRest(c: Config, s: State, a: Action)
    requires DownstreamWhole(s) && Enabled(c, s, a) && (a.Dispatch? || a.Work?)
    ensures DownstreamWhole(After(c, s, a))
  {
    hide DownstreamWhole;
    DownstreamSame(s, After(c, s, a));
  }

  lemma DownstreamKept(c: Config, s: State, a: Action)
    requires Accounts(c, s) && DownstreamWhole(s) && Enabled(c, s, a)
    requires s.nextB in s.reorderB ==> s.nextB < s.nextA
    ensures DownstreamWhole(After(c, s, a))
  {
    hide Downstream, DownstreamWhole, CanDispatch, CanWork, CanStage, CanResolve, CanOutput, Dispatched, Worked, Staged,
      ResolvedTo, OutputTo, Ids;
    match a {
      case Stage(g) => DownstreamStage(c, s, g);
      case Resolve(r) => DownstreamResolve(c, s, r);
      case Output(o) => DownstreamOutput(c, s, o);
      case _ => DownstreamRest(c, s, a);
    }
  }

  lemma AccountsKept(c: Config, s: State, a: Action)
    requires Accounts(c, s) && Conserved(s) && Enabled(c, s, a)
    ensures Accounts(c, After(c, s, a))
  {
    InHand(s);
    hide Accounts, Conserved;
    match a {
      case Dispatch(d) => AccountsDispatch(c, s, d);
      case Work(w) => AccountsWork(c, s, w);
      case Stage(g) => AccountsStage(c, s, g);
      case Resolve(r) => AccountsResolve(c, s, r);
      case Output(o) => AccountsOutput(c, s, o);
    }
  }

  // Staffing

  lemma StaffedDispatch(c: Config, s: State, d: DispatchStep)
    requires Accounts(c, s) && Staffed(c, s) && Sensible(c) && CanDispatch(c, s, d)
    ensures Staffed(c, Dispatched(s, d))
  {
    hide Ids;
  }

  lemma StaffedWork(c: Config, s: State, w: WorkStep)
    requires Staffed(c, s) && CanWork(c, s, w)
    ensures Staffed(c, Worked(c, s, w))
  {
  }

  lemma StaffedStage(c: Config, s: State, g: StageStep)
    requires Staffed(c, s) && (s.dropped ==> s.ending.Some?) && Sensible(c) && CanStage(c, s, g)
    ensures Staffed(c, Staged(c, s, g))
  {
    assert g.ReceiveFails? || g.GiveUp? ==> s.ending.None? ==> Error in Staged(c, s, g).done;
  }

  lemma StaffedResolve(c: Config, s: State, r: ResolverStep)
    requires Staffed(c, s) && (s.dropped ==> s.ending.Some?) && CanResolve(c, s, r)
    ensures Staffed(c, ResolvedTo(c, s, r))
  {
  }

  lemma StaffedOutput(c: Config, s: State, o: OutputStep)
    requires Staffed(c, s) && (s.dropped ==> s.ending.Some?) && CanOutput(c, s, o)
    ensures Staffed(c, OutputTo(c, s, o))
  {
    if s.done != [] { IdsOfHead(s.done); }
  }

  lemma StaffedKept(c: Config, s: State, a: Action)
    requires Accounts(c, s) && Staffed(c, s) && Sensible(c) && Enabled(c, s, a)
    ensures Staffed(c, After(c, s, a))
  {
    hide Staffed;
    match a {
      case Dispatch(d) => StaffedDispatch(c, s, d);
      case Work(w) => StaffedWork(c, s, w);
      case Stage(g) => StaffedStage(c, s, g);
      case Resolve(r) => StaffedResolve(c, s, r);
      case Output(o) => StaffedOutput(c, s, o);
    }
  }

  // The truth about chunks and endings

  lemma HopelessAt(c: Config, k: nat)
    requires forall i: nat | i < k :: !c.final(i)
    requires !c.decodes(k) || !c.resolves(k) || !c.checks(k)
    ensures Hopeless(c)
  {
    forall f: nat ensures !Good(c, f) {
      if f < k { assert !c.final(f); }
    }
  }

  lemma HopelessEndless(c: Config)
    requires forall i: nat | i < c.n :: !c.final(i)
    ensures Hopeless(c)
  {
  }

  /** With no outcome left to come and none waiting, stage A has seen everything. */
  lemma NothingComing(c: Config, s: State)
    requires Accounts(c, s) && UpstreamWhole(s) && Staffed(c, s) && Sensible(c)
    requires s.stageA && s.nextA !in s.reorderA && s.results == [] && !WorkersAlive(s)
    ensures s.nextA == s.next && (s.ending.None? ==> s.nextA == c.n)
  {
    hide Range, Ids;
    RangeHas(s.nextA, s.next, s.nextA);
    assert Upstream(s)[s.nextA] == 0;
  }

  /** With nothing on its way to it, the output has seen everything stage A passed on. */
  lemma CaughtUp(s: State)
    requires DownstreamWhole(s) && s.nextB <= s.nextA && s.ending.None?
    requires s.nextB !in s.reorderB && s.done == [] && s.jobs == [] && |s.resolving| == 0
    ensures s.nextA == s.nextB
  {
    hide Range;
    RangeHas(s.nextB, s.nextA, s.nextB);
    assert Downstream(s)[s.nextB] == 0;
  }

  /** The resolvers never all leave while the output still waits. */
  lemma NeverAbandoned(c: Config, s: State)
    requires Accounts(c, s) && DownstreamWhole(s) && Staffed(c, s) && Truthful(c, s) && Sensible(c)
    ensures !CanOutput(c, s, CollectFails)
  {
    hide Range, Ids, Hopeless, DownstreamWhole, PassedResolvers, IdsOf;
    if s.ending.None? && s.nextB !in s.reorderB && s.done == [] && s.jobs == [] && |s.resolving| == 0 {
      CaughtUp(s);
    }
  }

  lemma PassedStage(c: Config, s: State, g: StageStep)
    requires PassedStageA(c, s) && CanStage(c, s, g)
    ensures PassedStageA(c, Staged(c, s, g))
  {
  }

  lemma ResolvedStage(c: Config, s: State, g: StageStep)
    requires PassedResolvers(c, s) && CanStage(c, s, g)
    ensures PassedResolvers(c, Staged(c, s, g))
  {
    IdsOfSnoc(s.done, Error);
    hide IdsOf;
  }

  lemma EndedStage(c: Config, s: State, g: StageStep)
    requires Inv(c, s) && Sensible(c) && CanStage(c, s, g)
    ensures EndedRight(c, Staged(c, s, g))
  {
    hide Upstream, Downstream, Range, Ids, Accounts, UpstreamWhole, DownstreamWhole, Staffed, PassedResolvers;
    match g {
      case GiveUp => HopelessAt(c, s.nextA);
      case ReceiveFails =>
        NothingComing(c, s);
        if s.ending.None? { HopelessEndless(c); }
      case _ =>
    }
    hide Good, Hopeless, PassedStageA;
  }

  lemma InFlightJob(s: State, id: nat)
    requires DownstreamWhole(s) && id in s.resolving
    ensures id < s.nextA
  {
    hide Range, IdsOf;
    RangeHas(s.nextB, s.nextA, id);
    assert Downstream(s)[id] <= Range(s.nextB, s.nextA)[id];
  }

  lemma ResolvedResolve(c: Config, s: State, r: ResolverStep)
    requires PassedResolvers(c, s) && CanResolve(c, s, r)
    ensures PassedResolvers(c, ResolvedTo(c, s, r))
  {
    if r.Finish? {
      ResolvedFinish(c, s, r.id);
    } else {
      hide PassedResolvers;
      PassedSame(c, s, ResolvedTo(c, s, r));
    }
  }

  lemma PassedSame(c: Config, s: State, t: State)
    requires PassedResolvers(c, s) && t.done == s.done && t.reorderB == s.reorderB && t.nextB == s.nextB
    ensures PassedResolvers(c, t)
  {
    hide IdsOf;
  }

  lemma ResolvedFinish(c: Config, s: State, id: nat)
    requires PassedResolvers(c, s) && CanResolve(c, s, Finish(id))
    ensures PassedResolvers(c, ResolvedTo(c, s, Finish(id)))
  {
    IdsOfSnoc(s.done, if c.resolves(id) then Chunk(id) else Error);
    hide IdsOf;
  }

  lemma EndedResolve(c: Config, s: State, r: ResolverStep)
    requires Inv(c, s) && CanResolve(c, s, r)
    ensures EndedRight(c, ResolvedTo(c, s, r))
  {
    hide Upstream, Downstream, Range, Ids, Accounts, Staffed, PassedResolvers, DownstreamWhole;
    if r.Finish? {
      InFlightJob(s, r.id);
      if !c.resolves(r.id) { HopelessAt(c, r.id); }
    }
    hide Good, Hopeless, PassedStageA, Conserved;
  }

  lemma ResolvedCollect(c: Config, s: State)
    requires PassedResolvers(c, s) && CanOutput(c, s, Collect)
    ensures PassedResolvers(c, OutputTo(c, s, Collect))
  {
    IdsOfHead(s.done);
    hide IdsOf;
  }

  lemma ResolvedEmit(c: Config, s: State)
    requires PassedResolvers(c, s) && CanOutput(c, s, Emit)
    ensures PassedResolvers(c, OutputTo(c, s, Emit))
  {
    hide IdsOf;
  }

  lemma ResolvedOutput(c: Config, s: State, o: OutputStep)
    requires PassedResolvers(c, s) && CanOutput(c, s, o)
    ensures PassedResolvers(c, OutputTo(c, s, o))
  {
    hide IdsOf;
    match o {
      case Collect => ResolvedCollect(c, s);
      case Emit => ResolvedEmit(c, s);
      case _ => assert PassedResolvers(c, OutputTo(c, s, o));
    }
  }

  lemma PassedOutput(c: Config, s: State, o: OutputStep)
    requires PassedStageA(c, s) && CanOutput(c, s, o)
    ensures PassedStageA(c, OutputTo(c, s, o))
  {
  }

  lemma EndedOutput(c: Config, s: State, o: OutputStep)
    requires Inv(c, s) && Sensible(c) && CanOutput(c, s, o)
    ensures EndedRight(c, OutputTo(c, s, o))
  {
    hide Upstream, Downstream, Range, Ids, Staffed, PassedResolvers, UpstreamWhole, DownstreamWhole, Good, Hopeless,
      IdsOf;
    match o {
      case Emit =>
        InHand(s);
        if !c.checks(s.nextB) { HopelessAt(c, s.nextB); }
      case OutputEnds => HopelessEndless(c);
      case CollectFails => NeverAbandoned(c, s);
      case _ =>
    }
  }

  lemma TruthfulSame(c: Config, s: State, t: State)
    requires Truthful(c, s)
    requires t.done == s.done && t.reorderB == s.reorderB && t.stageA == s.stageA
    requires t.ending == s.ending && t.nextA == s.nextA && t.nextB == s.nextB
    ensures Truthful(c, t)
  {
    hide IdsOf, Hopeless;
  }

  lemma TruthfulStage(c: Config, s: State, g: StageStep)
    requires Inv(c, s) && Sensible(c) && CanStage(c, s, g)
    ensures Truthful(c, Staged(c, s, g))
  {
    hide PassedStageA, PassedResolvers, EndedRight, CanStage, Staged;
    PassedStage(c, s, g);
    ResolvedStage(c, s, g);
    EndedStage(c, s, g);
  }

  lemma TruthfulResolve(c: Config, s: State, r: ResolverStep)
    requires Inv(c, s) && CanResolve(c, s, r)
    ensures Truthful(c, ResolvedTo(c, s, r))
  {
    hide PassedResolvers, EndedRight, IdsOf;
    ResolvedResolve(c, s, r);
    EndedResolve(c, s, r);
  }

  lemma TruthfulOutput(c: Config, s: State, o: OutputStep)
    requires Inv(c, s) && Sensible(c) && CanOutput(c, s, o)
    ensures Truthful(c, OutputTo(c, s, o))
  {
    hide PassedStageA, PassedResolvers, EndedRight, CanOutput, OutputTo, Accounts, Staffed, Conserved;
    PassedOutput(c, s, o);
    ResolvedOutput(c, s, o);
    EndedOutput(c, s, o);
  }

  lemma TruthfulKept(c: Config, s: State, a: Action)
    requires Inv(c, s) && Sensible(c) && Enabled(c, s, a)
    ensures Truthful(c, After(c, s, a))
  {
    hide Truthful, Accounts, Conserved, Staffed;
    match a {
      case Dispatch(d) => TruthfulSame(c, s, Dispatched(s, d));
      case Work(w) => TruthfulSame(c, s, Worked(c, s, w));
      case Stage(g) => TruthfulStage(c, s, g);
      case Resolve(r) => TruthfulResolve(c, s, r);
      case Output(o) => TruthfulOutput(c, s, o);
    }
  }

  /** Every step keeps the invariant. */
  lemma InvKept(c: Config, s: State, a: Action)
    requires Inv(c, s) && Sensible(c) && Enabled(c, s, a)
    ensures Inv(c, After(c, s, a))
  {
    InHand(s);
    AccountsKept(c, s, a);
    hide Accounts, Staffed, Truthful, UpstreamWhole, DownstreamWhole, Enabled, After;
    UpstreamKept(c, s, a);
    DownstreamKept(c, s, a);
    StaffedKept(c, s, a);
    TruthfulKept(c, s, a);
  }

  lemma InvStart(c: Config)
    requires Sensible(c)
    ensures Inv(c, Start(c))
  {
  }

  // Progress

  /** Everything has stopped. */
  predicate Quiet(s: State) {
    && s.ending.Some? && s.dropped && s.shutdown
    && s.dispatcher == Gone && !WorkersAlive(s) && !s.stageA && !ResolversAlive(s)
  }

  ghost predicate CanStep(c: Config, s: State) {
    exists a :: Enabled(c, s, a)
  }

  lemma Steps(c: Config, s: State, a: Action)
    requires Enabled(c, s, a)
    ensures CanStep(c, s)
  {
  }

  /** A dispatcher that has not left can step, unless it waits for a slot or for room. */
  lemma DispatcherSteps(c: Config, s: State)
    requires s.dispatcher != Gone
    requires s.dispatcher == Idle && !s.shutdown ==> s.inFlight < c.max
    requires s.dispatcher == Holding ==> |s.work| < c.room || !WorkersAlive(s)
    ensures CanStep(c, s)
  {
    var d := if s.dispatcher == Holding then (if WorkersAlive(s) then Send else SendFails)
             else if s.next >= c.n then AllSent else if s.shutdown then Refused else Acquire;
    Steps(c, s, Dispatch(d));
  }

  lemma SomeOf(m: multiset<nat>) returns (x: nat)
    requires |m| > 0
    ensures x in m
  {
    x :| x in m;
  }

  /** Workers that have not left can step, unless they wait for items or for room. */
  lemma WorkersStep(c: Config, s: State)
    requires |s.busy| > 0 ==> !s.stageA || |s.results| < c.room
    requires |s.busy| > 0 || (s.idleWorkers > 0 && (s.work != [] || s.dispatcher == Gone))
    ensures CanStep(c, s)
  {
    if |s.busy| > 0 {
      var id := SomeOf(s.busy);
      Steps(c, s, Work(if s.stageA then Report(id) else ReportFails(id)));
    } else {
      Steps(c, s, Work(if s.work != [] then Take else WorkerEnds));
    }
  }

  /** Before the output has stopped, some thread can step. */
  lemma RunningSteps(c: Config, s: State)
    requires Inv(c, s) && Sensible(c) && s.ending.None?
    ensures CanStep(c, s)
  {
    hide Range, Ids, Upstream, Downstream, Hopeless, PassedResolvers, CanStep, Enabled, UpstreamWhole,
      DownstreamWhole;
    if s.nextB >= c.n {
      OutputSteps(c, s);
    } else if s.nextB in s.reorderB {
      OutputSteps(c, s);
    } else if s.done != [] {
      OutputSteps(c, s);
    } else if |s.resolving| > 0 || s.jobs != [] {
      ResolversStep(c, s);
    } else {
      CaughtUp(s);
      assert s.stageA;
      CalmSteps(c, s);
    }
  }

  lemma OutputSteps(c: Config, s: State)
    requires s.ending.None? && (s.nextB >= c.n || s.nextB in s.reorderB || s.done != [])
    ensures CanStep(c, s)
  {
    Steps(c, s, Output(if s.nextB in s.reorderB then Emit else if s.nextB >= c.n then OutputEnds else Collect));
  }

  lemma ShutdownSteps(c: Config, s: State)
    requires s.ending.Some? && (!s.dropped || !s.shutdown)
    ensures CanStep(c, s)
  {
    Steps(c, s, Output(if s.dropped then Shutdown else Drop));
  }

  lemma ResolversStep(c: Config, s: State)
    requires |s.resolving| > 0 || s.jobs != [] || !s.stageA
    requires ResolversAlive(s) && (s.dropped || |s.done| < c.room)
    ensures CanStep(c, s)
  {
    if |s.resolving| > 0 {
      var id := SomeOf(s.resolving);
      Steps(c, s, Resolve(if s.dropped then FinishFails(id) else Finish(id)));
    } else {
      Steps(c, s, Resolve(if s.jobs != [] then TakeJob else ResolverEnds));
    }
  }

  /** With everything before stage A's hands at rest, stage A, a worker or the dispatcher can step. */
  lemma CalmSteps(c: Config, s: State)
    requires Inv(c, s) && Sensible(c) && s.ending.None? && s.stageA && s.nextB < c.n
    requires s.nextA == s.nextB && s.done == [] && s.jobs == [] && ResolversAlive(s)
    ensures CanStep(c, s)
  {
    hide Range, Ids, Upstream, Downstream, Hopeless, Truthful, CanStep, Enabled, UpstreamWhole, DownstreamWhole;
    if s.nextA in s.reorderA || s.results != [] {
      StageSteps(c, s);
    } else if |s.busy| > 0 || (s.idleWorkers > 0 && (s.work != [] || s.dispatcher == Gone)) {
      WorkersStep(c, s);
    } else if s.work == [] {
      AllTaken(s);
      if s.dispatcher != Gone { DispatcherSteps(c, s); }
    }
  }

  lemma StageSteps(c: Config, s: State)
    requires s.stageA && (s.nextA in s.reorderA || s.results != [] || !WorkersAlive(s))
    requires s.dropped || |s.done| < c.room
    requires !ResolversAlive(s) || |s.jobs| < c.room
    ensures CanStep(c, s)
  {
    var g :=
      if s.nextA in s.reorderA then
        (if !c.decodes(s.nextA) then GiveUp else if ResolversAlive(s) then Pass else PassFails)
      else if s.results != [] then Receive else ReceiveFails;
    Steps(c, s, Stage(g));
  }

  /** With nothing on its way to stage A, it has everything that was sent. */
  lemma AllTaken(s: State)
    requires UpstreamWhole(s) && s.stageA && s.nextA <= s.next
    requires s.nextA !in s.reorderA && s.results == [] && |s.busy| == 0 && s.work == []
    ensures s.nextA == s.next
  {
    hide Range;
    RangeHas(s.nextA, s.next, s.nextA);
    assert Upstream(s)[s.nextA] == 0;
  }

  /** After the output has stopped, some thread can step until all have left. */
  lemma StoppingSteps(c: Config, s: State)
    requires Inv(c, s) && Sensible(c) && s.ending.Some? && !Quiet(s)
    ensures CanStep(c, s)
  {
    hide Inv, CanStep, Enabled;
    if !s.dropped || !s.shutdown {
      ShutdownSteps(c, s);
    } else if |s.resolving| > 0 || (ResolversAlive(s) && (s.jobs != [] || !s.stageA)) {
      ResolversStep(c, s);
    } else if s.stageA && (s.nextA in s.reorderA || s.results != [] || !WorkersAlive(s)) {
      StageSteps(c, s);
    } else if |s.busy| > 0 || (s.idleWorkers > 0 && (s.work != [] || s.dispatcher == Gone)) {
      WorkersStep(c, s);
    } else {
      DispatcherSteps(c, s);
    }
  }

  /** Any run that is not over has a step to take: no channel, map or cap ever holds all threads up. */
  lemma NoDeadlock(c: Config, s: State)
    requires Inv(c, s) && Sensible(c) && !Quiet(s)
    ensures CanStep(c, s)
  {
    hide Inv, CanStep;
    if s.ending.None? { RunningSteps(c, s); } else { StoppingSteps(c, s); }
  }

  // Every run ends

  function Lives(s: State): nat {
    (if s.dispatcher == Gone then 0 else 1) + (if s.dispatcher == Idle then 1 else 0)
    + s.idleWorkers + |s.busy| + (if s.stageA then 5 else 0) + s.idleResolvers + |s.resolving|
    + (if s.ending.None? then 1 else 0) + (if s.dropped then 0 else 1) + (if s.shutdown then 0 else 1)
  }

  /** The steps that are left at most: what the chunks have still to go, and the threads to leave. */
  function Left(c: Config, s: State): int {
    12 * (c.n - s.next) + 10 * |s.work| + 9 * |s.busy| + 8 * |s.results| + 7 * |s.reorderA|
    + 6 * |s.jobs| + 5 * |s.resolving| + 4 * |s.done| + 3 * |s.reorderB| + Lives(s)
  }

  lemma LeftDispatch(c: Config, s: State, d: DispatchStep)
    requires CanDispatch(c, s, d)
    ensures Left(c, Dispatched(s, d)) < Left(c, s)
  {
  }

  lemma LeftWork(c: Config, s: State, w: WorkStep)
    requires CanWork(c, s, w)
    ensures Left(c, Worked(c, s, w)) < Left(c, s)
  {
  }

  lemma LeftStage(c: Config, s: State, g: StageStep)
    requires CanStage(c, s, g)
    ensures Left(c, Staged(c, s, g)) < Left(c, s)
  {
  }

  lemma LeftResolve(c: Config, s: State, r: ResolverStep)
    requires CanResolve(c, s, r)
    ensures Left(c, ResolvedTo(c, s, r)) < Left(c, s)
  {
  }

  lemma LeftEmit(c: Config, s: State)
    requires CanOutput(c, s, Emit)
    ensures Left(c, OutputTo(c, s, Emit)) < Left(c, s)
  {
  }

  lemma LeftCollect(c: Config, s: State)
    requires CanOutput(c, s, Collect)
    ensures Left(c, OutputTo(c, s, Collect)) < Left(c, s)
  {
  }

  lemma LeftOutput(c: Config, s: State, o: OutputStep)
    requires CanOutput(c, s, o)
    ensures Left(c, OutputTo(c, s, o)) < Left(c, s)
  {
    if o == Emit {
      LeftEmit(c, s);
    } else if o == Collect {
      LeftCollect(c, s);
    }
  }

  lemma LeftShrinks(c: Config, s: State, a: Action)
    requires Enabled(c, s, a)
    ensures Left(c, After(c, s, a)) < Left(c, s)
  {
    hide Left;
    match a {
      case Dispatch(d) => LeftDispatch(c, s, d);
      case Work(w) => LeftWork(c, s, w);
      case Stage(g) => LeftStage(c, s, g);
      case Resolve(r) => LeftResolve(c, s, r);
      case Output(o) => LeftOutput(c, s, o);
    }
  }

  // Runs

  /** The state after a run of steps from s; `None` when one of them was not enabled. */
  function Run(c: Config, s: State, steps: seq<Action>): Option<State>
    decreases |steps|
  {
    if steps == [] then Some(s)
    else if !Enabled(c, s, steps[0]) then None
    else Run(c, After(c, s, steps[0]), steps[1..])
  }

  /** Every run keeps the invariant and uses up the measure. */
  lemma {:induction false} RunKeeps(c: Config, s: State, steps: seq<Action>)
    requires Inv(c, s) && Sensible(c)
    ensures match Run(c, s, steps)
      case None => true
      case Some(t) => Inv(c, t) && |steps| + Left(c, t) <= Left(c, s)
    decreases |steps|
  {
    hide Inv, Left, Enabled, After;
    if steps != [] && Enabled(c, s, steps[0]) {
      InvKept(c, s, steps[0]);
      LeftShrinks(c, s, steps[0]);
      RunKeeps(c, After(c, s, steps[0]), steps[1..]);
    }
  }

  /** In every run: chunks reach the sink once each and in id order; claimed minus freed slots are the
      count in flight, which stays under the limit; and no run is longer than 12 steps a chunk and a few
      for each thread. */
  lemma EveryRun(c: Config, steps: seq<Action>)
    requires Sensible(c) && Run(c, Start(c), steps).Some?
    ensures var s := Run(c, Start(c), steps).value;
      && s.sink == Ids(s.nextB)
      && s.inFlight == s.acquired - s.released && s.inFlight <= c.max
      && |steps| <= 12 * c.n + c.workers + c.resolvers + 10
  {
    hide Left, Start, Conserved, Staffed, Truthful;
    InvStart(c);
    RunKeeps(c, Start(c), steps);
    var s := Run(c, Start(c), steps).value;
    LeftBounds(c, s);
    LeftStart(c);
  }

  lemma LeftBounds(c: Config, s: State)
    requires Accounts(c, s)
    ensures Left(c, s) >= 0
  {
  }

  lemma LeftStart(c: Config)
    ensures Left(c, Start(c)) == 12 * c.n + c.workers + c.resolvers + 10
  {
  }

  /** A run that can go no further has stopped every thread. If the consumer kept receiving, it delivered
      exactly the chunks up to the one that ends the stream when that and all before it are good, and
      otherwise it ended in an error: whichever way the threads were scheduled. */
  lemma EveryFullRun(c: Config, steps: seq<Action>)
    requires Sensible(c) && Run(c, Start(c), steps).Some?
    requires !CanStep(c, Run(c, Start(c), steps).value)
    ensures var s := Run(c, Start(c), steps).value;
      && Quiet(s)
      && (s.ending != Some(SinkClosed) ==>
            forall f: nat :: Good(c, f) <==> s.ending == Some(Success) && s.sink == Ids(f + 1))
  {
    hide Left, Start, Conserved, Staffed, Accounts, CanStep, Truthful, Good, Ids, Quiet;
    InvStart(c);
    RunKeeps(c, Start(c), steps);
    var s := Run(c, Start(c), steps).value;
    if !Quiet(s) { NoDeadlock(c, s); }
    QuietEnded(s);
    if s.ending != Some(SinkClosed) {
      forall f: nat ensures Good(c, f) <==> s.ending == Some(Success) && s.sink == Ids(f + 1) {
        EndingIsRight(c, s, f);
      }
    }
  }

  lemma QuietEnded(s: State)
    requires Quiet(s)
    ensures s.ending.Some?
  {
  }

  lemma EndingIsRight(c: Config, s: State, f: nat)
    requires Accounts(c, s) && Truthful(c, s) && s.ending.Some? && s.ending != Some(SinkClosed)
    ensures Good(c, f) <==> s.ending == Some(Success) && s.sink == Ids(f + 1)
  {
    hide IdsOf;
    match s.ending.value {
      case Success =>
        SuccessIsGood(c, s);
        if Good(c, f) {
          OneGood(c, f, s.nextB - 1);
          assert f + 1 == s.nextB;
        }
        if s.sink == Ids(f + 1) { assert |s.sink| == f + 1; }
      case BadMember => assert Hopeless(c);
      case StageFailed => assert Hopeless(c);
      case ChannelGone => assert false;
      case NoFinalBlock => assert Hopeless(c);
      case SinkClosed =>
    }
  }

  lemma SuccessIsGood(c: Config, s: State)
    requires Accounts(c, s) && Truthful(c, s) && s.ending == Some(Success)
    ensures s.nextB > 0 && Good(c, s.nextB - 1)
  {
    hide IdsOf;
  }

  lemma OneGood(c: Config, f: nat, g: nat)
    requires Good(c, f) && Good(c, g)
    ensures f == g
  {
  }
}
