/** The threads with what they carry: the machine of chunk ids, and beside each id what the stages made of
    that chunk. A step may carry whatever the contract of the stage allows, and nothing else decides how a
    chunk fares (pipeline.rs). */
module Threads {
  import opened Words
  import opened BitStream
  import opened Tables
  import opened Lz77
  import opened Speculative
  import opened Walk
  import opened Chain
  import opened Digest
  import opened Workers
  import opened Endings
  import opened Output
  import M = Machine
  import Delivery

  /** One decode: the stream, the hints of its work items, the checksum, and the sizes of the pools, of the
      channels and of the in-flight cap. */
  datatype Setting = Setting(src: Source, hints: seq<nat>, h: Hasher, workers: nat, resolvers: nat, room: nat,
                             max: nat)

  ghost predicate Proper(e: Setting) {
    && Forward(e.src) && Plausible(e.src, e.hints) && Lawful(e.h) && PositionsFit(e.src, e.hints)
    && e.workers > 0 && e.resolvers > 0 && e.room > 0 && e.max > 0
  }

  /** Where the threads are; what the workers have reported; stage A's position and tail; what stage A, the
      resolvers and the output have made of each chunk they came to; the output's running digest; and the
      bytes in the sink. */
  datatype World = World(
    s: M.State,
    reports: map<nat, Report>,
    anchor: nat, prevTail: seq<u8>,
    tasks: map<nat, Result<Task>>,
    dones: map<nat, Result<Done>>,
    cur: (nat, nat), checked: map<nat, bool>,
    sink: seq<seq<u8>>)

  ghost function StartWorld(e: Setting): World
    requires Forward(e.src)
  {
    World(M.Start(Verdicts(e, map[], map[], map[])), map[], 0, [], map[], map[], (e.h.of([]), 0), map[], [])
  }

  /** Chunk k takes the chain on. */
  ghost predicate Through(e: Setting, k: nat)
    requires Forward(e.src)
  {
    && k < |e.hints| && ChainTo(e.src, e.hints, k).Running?
    && ChainTo(e.src, e.hints, k + 1) != ChainState.Over(PipelineResult.Failed)
  }

  /** How the chunks fare: as the stages have found, and for a chunk they have not come to, as the chain
      says (which no step looks at). */
  ghost function Verdicts(e: Setting, tasks: map<nat, Result<Task>>, dones: map<nat, Result<Done>>,
                          checked: map<nat, bool>): M.Config
    requires Forward(e.src)
  {
    M.Config(|e.hints|, e.workers, e.resolvers, e.room, e.max,
      (k: nat) => if k in tasks then tasks[k].Ok? else Through(e, k),
      (k: nat) => if k in dones then dones[k].Ok? else Through(e, k),
      (k: nat) => if k in tasks && tasks[k].Ok? then tasks[k].value.final
                  else k < |e.hints| && ChainTo(e.src, e.hints, k + 1).Over?,
      (k: nat) => if k in checked then checked[k]
                  else k < |e.hints| && StateChecked(e.h, ChainTo(e.src, e.hints, k + 1)))
  }

  ghost function Found(e: Setting, w: World): M.Config
    requires Forward(e.src)
  {
    Verdicts(e, w.tasks, w.dones, w.checked)
  }

  // What a step may carry

  /** A worker's report on its item. */
  ghost predicate WorkerTurn(e: Setting, w: World, id: nat, t: World)
    requires Forward(e.src)
  {
    && id in t.reports && t.reports[id].id == id && GenuineReport(e.src, e.hints, t.reports[id])
    && t == w.(s := t.s, reports := w.reports[id := t.reports[id]])
  }

  /** Stage A on the next chunk: given what `AcceptOutcome` asks for, what it promises. */
  ghost predicate StageTurn(e: Setting, w: World, t: World)
    requires Forward(e.src)
  {
    var k := w.s.nextA;
    && k in t.tasks
    && t == w.(s := t.s, tasks := w.tasks[k := t.tasks[k]], anchor := t.anchor, prevTail := t.prevTail)
    && (StageReady(e, w, k) ==>
          StageAnswers(e.src, e.hints, k, w.prevTail, Made(t.tasks[k], t.anchor, t.prevTail)))
  }

  ghost predicate StageReady(e: Setting, w: World, k: nat)
    requires Forward(e.src)
  {
    && k < |e.hints| && k in w.reports && w.reports[k].id == k && GenuineReport(e.src, e.hints, w.reports[k])
    && Anchored(e.src, e.hints, k, w.anchor, w.prevTail)
  }

  function Made(r: Result<Task>, end: nat, tail: seq<u8>): Result<(Task, nat, seq<u8>)> {
    match r
    case Ok(t) => Ok((t, end, tail))
    case Err(x) => Err(x)
  }

  /** A resolver on its job: given what `Resolve` asks for, what it promises. */
  ghost predicate ResolverTurn(e: Setting, w: World, id: nat, t: World)
    requires Forward(e.src)
  {
    && id in t.dones && t == w.(s := t.s, dones := w.dones[id := t.dones[id]])
    && (id in w.tasks && w.tasks[id].Ok? && RightTask(e.src, e.hints, w.tasks[id].value) ==>
          ResolverAnswers(e.src, e.hints, e.h, w.tasks[id].value, t.dones[id]))
  }

  /** The output on the next chunk: given what `EmitNext` asks for, what it promises. */
  ghost predicate OutputTurn(e: Setting, w: World, t: World)
    requires Forward(e.src)
  {
    var k := w.s.nextB;
    && k in t.checked
    && t == w.(s := t.s, cur := t.cur, checked := w.checked[k := t.checked[k]], sink := t.sink)
    && (OutputReady(e, w, k) ==>
          OutputAnswers(e.src, e.hints, e.h, w.dones[k].value, w.sink, t.s.ending, t.cur, t.sink))
  }

  ghost predicate OutputReady(e: Setting, w: World, k: nat)
    requires Forward(e.src)
  {
    && k in w.dones && w.dones[k].Ok? && RightDone(e.src, e.hints, e.h, w.dones[k].value)
    && w.dones[k].value.id == k == |w.sink|
    && Midway(e.src, e.hints, e.h, w.sink, w.cur)
  }

  ghost predicate Carries(e: Setting, w: World, a: M.Action, t: World)
    requires Forward(e.src)
  {
    match a
    case Work(Report(id)) => WorkerTurn(e, w, id, t)
    case Stage(g) => if g.Pass? || g.PassFails? || g.GiveUp? then StageTurn(e, w, t) else t == w.(s := t.s)
    case Resolve(Finish(id)) => ResolverTurn(e, w, id, t)
    case Output(o) => if o.Emit? || o.EmitFails? then OutputTurn(e, w, t) else t == w.(s := t.s)
    case _ => t == w.(s := t.s)
  }

  /** A step of one thread: the machine's step, with the verdicts found by the end of it. */
  ghost predicate WorldStep(e: Setting, w: World, a: M.Action, t: World)
    requires Forward(e.src)
  {
    && M.Enabled(Found(e, t), w.s, a) && t.s == M.After(Found(e, t), w.s, a)
    && Carries(e, w, a, t)
  }

  // What every step keeps

  ghost predicate ReportsRight(e: Setting, w: World)
    requires Forward(e.src)
  {
    && (forall id | id in w.reports :: w.reports[id].id == id && GenuineReport(e.src, e.hints, w.reports[id]))
    && (forall id | id in w.s.results :: id in w.reports)
    && (forall id | id in w.s.reorderA :: id in w.reports)
  }

  ghost predicate TaskRight(e: Setting, k: nat, r: Result<Task>)
    requires Forward(e.src)
  {
    && k < |e.hints|
    && match r
       case Ok(t) => t.id == k && RightTask(e.src, e.hints, t)
       case Err(_) => Pipeline(e.src, e.hints) == PipelineResult.Failed
  }

  ghost predicate TasksRight(e: Setting, w: World)
    requires Forward(e.src)
  {
    && (forall k | k in w.tasks :: TaskRight(e, k, w.tasks[k]))
    && (forall k | k in w.tasks :: k < w.s.nextA || !w.s.stageA)
    && (forall k: nat | k < w.s.nextA :: k in w.tasks && w.tasks[k].Ok?)
    && w.s.nextA <= |e.hints|
    && (w.s.stageA ==> Anchored(e.src, e.hints, w.s.nextA, w.anchor, w.prevTail))
  }

  ghost predicate DoneRight(e: Setting, w: World, k: nat)
    requires Forward(e.src) && k in w.dones
  {
    && k in w.tasks && w.tasks[k].Ok? && TaskRight(e, k, w.tasks[k])
    && ResolverAnswers(e.src, e.hints, e.h, w.tasks[k].value, w.dones[k])
  }

  ghost predicate DonesKnown(e: Setting, w: World)
    requires Forward(e.src)
  {
    forall k | k in w.dones :: k < w.s.nextA && DoneRight(e, w, k)
  }

  /** What is still to be resolved, and what goes to the output. */
  ghost predicate DonesPlaced(s: M.State, dones: map<nat, Result<Done>>) {
    && (forall k | k in s.jobs :: k !in dones)
    && (forall k | k in s.resolving :: k !in dones)
    && (forall k | k in M.IdsOf(s.done) :: k in dones && dones[k].Ok?)
    && (forall k | k in s.reorderB :: k in dones && dones[k].Ok?)
  }

  ghost predicate DonesRight(e: Setting, w: World)
    requires Forward(e.src)
  {
    DonesKnown(e, w) && DonesPlaced(w.s, w.dones)
  }

  ghost predicate SinkRight(e: Setting, w: World)
    requires Forward(e.src)
  {
    && |w.sink| == w.s.nextB && SinkHolds(e.src, e.hints, w.sink)
    && (w.s.ending.None? ==> Midway(e.src, e.hints, e.h, w.sink, w.cur))
    && (forall k | k in w.checked :: k < w.s.nextB || w.s.ending.Some?)
    && (forall k | k in w.checked ::
          k < |e.hints| && (w.checked[k] <==> StateChecked(e.h, ChainTo(e.src, e.hints, k + 1))))
  }

  ghost predicate WorldInv(e: Setting, w: World)
    requires Forward(e.src)
  {
    && M.Accounts(Found(e, w), w.s) && M.Conserved(w.s)
    && ReportsRight(e, w) && TasksRight(e, w) && DonesRight(e, w) && SinkRight(e, w)
  }

  /** Findings stay. */
  ghost predicate Grown(w: World, t: World) {
    && (forall k | k in w.tasks :: k in t.tasks && t.tasks[k] == w.tasks[k])
    && (forall k | k in w.dones :: k in t.dones && t.dones[k] == w.dones[k])
    && (forall k | k in w.checked :: k in t.checked && t.checked[k] == w.checked[k])
  }

  lemma AccountsSame(c: M.Config, d: M.Config, s: M.State)
    requires M.Accounts(c, s) && c.n == d.n && c.max == d.max
    ensures M.Accounts(d, s)
  {
  }

  lemma MachineKept(e: Setting, w: World, a: M.Action, t: World)
    requires Forward(e.src) && WorldInv(e, w) && WorldStep(e, w, a, t)
    ensures M.Accounts(Found(e, t), t.s) && M.Conserved(t.s)
  {
    hide Forward, ReportsRight, TasksRight, DonesRight, SinkRight, Carries, M.Enabled, M.After, M.Accounts,
      M.UpstreamWhole, M.DownstreamWhole;
    AccountsSame(Found(e, w), Found(e, t), w.s);
    M.InHand(w.s);
    M.AccountsKept(Found(e, t), w.s, a);
    assert w.s.nextA <= w.s.next by { AccountsOrder(Found(e, w), w.s); }
    M.UpstreamKept(Found(e, t), w.s, a);
    M.DownstreamKept(Found(e, t), w.s, a);
  }

  lemma AccountsOrder(c: M.Config, s: M.State)
    requires M.Accounts(c, s)
    ensures s.nextB <= s.nextA <= s.next <= c.n
  {
  }

  // What each thread leaves alone

  lemma DispatchFrame(s: M.State, d: M.DispatchStep)
    ensures var t := M.Dispatched(s, d);
      && t.results == s.results && t.reorderA == s.reorderA && t.stageA == s.stageA && t.nextA == s.nextA
      && t.jobs == s.jobs && t.resolving == s.resolving && t.done == s.done
      && t.ending == s.ending && t.reorderB == s.reorderB && t.nextB == s.nextB
  {
  }

  lemma WorkFrame(c: M.Config, s: M.State, w: M.WorkStep)
    requires M.CanWork(c, s, w)
    ensures var t := M.Worked(c, s, w);
      && t.results == s.results + (if w.Report? then [w.id] else [])
      && t.reorderA == s.reorderA && t.stageA == s.stageA && t.nextA == s.nextA
      && t.jobs == s.jobs && t.resolving == s.resolving && t.done == s.done
      && t.ending == s.ending && t.reorderB == s.reorderB && t.nextB == s.nextB
  {
  }

  lemma StageFrame(c: M.Config, s: M.State, g: M.StageStep)
    requires M.CanStage(c, s, g)
    ensures s.stageA
    ensures g.Receive? ==> s.results != []
    ensures g.Pass? || g.PassFails? || g.GiveUp? ==> s.nextA in s.reorderA && (c.decodes(s.nextA) <==> !g.GiveUp?)
    ensures var t := M.Staged(c, s, g);
      && t.results == (if g.Receive? then s.results[1..] else s.results)
      && t.reorderA == (if g.Receive? then s.reorderA + multiset{s.results[0]}
                        else if g.Pass? then s.reorderA - multiset{s.nextA} else s.reorderA)
      && t.stageA == (g.Receive? || (g.Pass? && !c.final(s.nextA)))
      && t.nextA == s.nextA + (if g.Pass? then 1 else 0)
      && t.jobs == s.jobs + (if g.Pass? then [s.nextA] else []) && t.resolving == s.resolving
      && (t.done == s.done || t.done == s.done + [M.Message.Error])
      && t.ending == s.ending && t.reorderB == s.reorderB && t.nextB == s.nextB
  {
  }

  lemma ResolveFrame(c: M.Config, s: M.State, r: M.ResolverStep)
    requires M.CanResolve(c, s, r)
    ensures r.TakeJob? ==> s.jobs != []
    ensures r.Finish? || r.FinishFails? ==> r.id in s.resolving
    ensures var t := M.ResolvedTo(c, s, r);
      && t.results == s.results && t.reorderA == s.reorderA && t.stageA == s.stageA && t.nextA == s.nextA
      && (forall k | k in t.jobs :: k in s.jobs)
      && (forall k | k in t.resolving :: k in s.resolving || (r.TakeJob? && k in s.jobs))
      && (r.Finish? ==> t.jobs == s.jobs && t.resolving == s.resolving - multiset{r.id})
      && t.done == (if r.Finish?
                    then s.done + [if c.resolves(r.id) then M.Message.Chunk(r.id) else M.Message.Error] else s.done)
      && t.ending == s.ending && t.reorderB == s.reorderB && t.nextB == s.nextB
  {
  }

  lemma OutputFrame(c: M.Config, s: M.State, o: M.OutputStep)
    requires M.CanOutput(c, s, o)
    ensures o.Collect? ==> s.done != []
    ensures o.Emit? || o.EmitFails? ==> s.nextB in s.reorderB
    ensures !o.Drop? && !o.Shutdown? ==> s.ending.None?
    ensures var t := M.OutputTo(c, s, o);
      && t.results == s.results && t.reorderA == s.reorderA && t.stageA == s.stageA && t.nextA == s.nextA
      && t.jobs == s.jobs && t.resolving == s.resolving
      && t.done == (if o.Collect? then s.done[1..] else s.done)
      && (o.Collect? || t.reorderB == s.reorderB || t.reorderB == s.reorderB - multiset{s.nextB})
      && (o.Collect? ==> t.reorderB == if s.done[0].Error? then s.reorderB else s.reorderB + multiset{s.done[0].id})
      && t.nextB == s.nextB + (if o.Emit? && c.checks(s.nextB) then 1 else 0)
      && (s.ending.Some? ==> t.ending == s.ending)
  {
  }

  /** How the output goes on from the chunk it has checked. */
  lemma OutputEnding(c: M.Config, s: M.State, o: M.OutputStep)
    requires M.CanOutput(c, s, o) && (o.Emit? || o.EmitFails?)
    ensures M.OutputTo(c, s, o).ending ==
      if o.EmitFails? then Some(SinkClosed)
      else if !c.checks(s.nextB) then Some(BadMember)
      else if c.final(s.nextB) then Some(Success) else None
    ensures o.EmitFails? ==> c.checks(s.nextB)
  {
  }

  // Preservation, thread by thread

  lemma ReportCarried(e: Setting, w: World, a: M.Action, t: World)
    requires Forward(e.src) && Carries(e, w, a, t)
    ensures forall id | id in w.reports :: id in t.reports
    ensures forall id | id in t.reports && (id !in w.reports || t.reports[id] != w.reports[id]) ::
      t.reports[id].id == id && GenuineReport(e.src, e.hints, t.reports[id])
    ensures a.Work? && a.w.Report? ==> a.w.id in t.reports
  {
    hide Forward, GenuineReport, StageReady, OutputReady, StageAnswers, OutputAnswers, ResolverAnswers, RightTask;
  }

  /** Where the outcomes are, after a step. */
  lemma OutcomesMove(c: M.Config, s: M.State, a: M.Action)
    requires M.Enabled(c, s, a)
    ensures var t := M.After(c, s, a);
      && (forall id | id in t.results :: id in s.results || a == M.Work(M.Report(id)))
      && (forall id | id in t.reorderA :: id in s.reorderA || id in s.results)
  {
    hide M.Dispatched, M.Worked, M.Staged, M.ResolvedTo, M.OutputTo, M.CanDispatch, M.CanWork, M.CanStage,
      M.CanResolve, M.CanOutput;
    match a {
      case Dispatch(d) => DispatchFrame(s, d);
      case Work(r) => WorkFrame(c, s, r);
      case Stage(g) => StageFrame(c, s, g);
      case Resolve(r) => ResolveFrame(c, s, r);
      case Output(o) => OutputFrame(c, s, o);
    }
  }

  lemma ReportsKept(e: Setting, w: World, a: M.Action, t: World)
    requires Forward(e.src) && ReportsRight(e, w) && WorldStep(e, w, a, t)
    ensures ReportsRight(e, t)
  {
    hide Forward, GenuineReport, Carries, Found, M.Enabled, M.After;
    OutcomesMove(Found(e, t), w.s, a);
    ReportCarried(e, w, a, t);
  }

  lemma StageCarries(e: Setting, w: World, g: M.StageStep, t: World)
    requires Forward(e.src) && Carries(e, w, M.Stage(g), t)
    ensures t.reports == w.reports && t.dones == w.dones && t.checked == w.checked
    ensures t.sink == w.sink && t.cur == w.cur
    ensures !(g.Pass? || g.PassFails? || g.GiveUp?) ==>
      t.tasks == w.tasks && t.anchor == w.anchor && t.prevTail == w.prevTail
  {
  }

  lemma ResolverCarries(e: Setting, w: World, r: M.ResolverStep, t: World)
    requires Forward(e.src) && Carries(e, w, M.Resolve(r), t)
    ensures t.reports == w.reports && t.tasks == w.tasks && t.checked == w.checked
    ensures t.sink == w.sink && t.cur == w.cur && t.anchor == w.anchor && t.prevTail == w.prevTail
    ensures !r.Finish? ==> t.dones == w.dones
  {
  }

  lemma OutputCarries(e: Setting, w: World, o: M.OutputStep, t: World)
    requires Forward(e.src) && Carries(e, w, M.Output(o), t)
    ensures t.reports == w.reports && t.tasks == w.tasks && t.dones == w.dones
    ensures t.anchor == w.anchor && t.prevTail == w.prevTail
    ensures !(o.Emit? || o.EmitFails?) ==> t.sink == w.sink && t.cur == w.cur && t.checked == w.checked
  {
  }

  lemma WorkCarries(e: Setting, w: World, a: M.Action, t: World)
    requires Forward(e.src) && Carries(e, w, a, t) && (a.Work? || a.Dispatch?)
    ensures t.tasks == w.tasks && t.dones == w.dones && t.checked == w.checked
    ensures t.sink == w.sink && t.cur == w.cur && t.anchor == w.anchor && t.prevTail == w.prevTail
  {
  }

  /** Stage A comes to a chunk once, and finds it reported. */
  lemma StageTurnRight(e: Setting, w: World, t: World)
    requires Forward(e.src) && ReportsRight(e, w) && TasksRight(e, w) && w.s.stageA && w.s.nextA in w.s.reorderA
    requires StageTurn(e, w, t)
    ensures w.s.nextA !in w.tasks && w.s.nextA < |e.hints| && TaskRight(e, w.s.nextA, t.tasks[w.s.nextA])
    ensures t.tasks[w.s.nextA].Ok? && !t.tasks[w.s.nextA].value.final ==>
      Anchored(e.src, e.hints, w.s.nextA + 1, t.anchor, t.prevTail)
    ensures t.tasks == w.tasks[w.s.nextA := t.tasks[w.s.nextA]]
  {
    hide Forward, Anchored, RightTask, ChainFrom;
    assert StageReady(e, w, w.s.nextA);
  }

  lemma FoundTask(e: Setting, w: World, k: nat)
    requires Forward(e.src) && k in w.tasks
    ensures Found(e, w).decodes(k) <==> w.tasks[k].Ok?
    ensures w.tasks[k].Ok? ==> (Found(e, w).final(k) <==> w.tasks[k].value.final)
  {
  }

  lemma FoundDone(e: Setting, w: World, k: nat)
    requires Forward(e.src) && k in w.dones
    ensures Found(e, w).resolves(k) <==> w.dones[k].Ok?
  {
  }

  lemma FoundChecked(e: Setting, w: World, k: nat)
    requires Forward(e.src) && k in w.checked
    ensures Found(e, w).checks(k) <==> w.checked[k]
  {
  }

  lemma TasksKeptByStage(e: Setting, w: World, g: M.StageStep, t: World)
    requires Forward(e.src) && ReportsRight(e, w) && TasksRight(e, w) && WorldStep(e, w, M.Stage(g), t)
    ensures TasksRight(e, t)
    ensures forall k | k in w.tasks :: k in t.tasks && t.tasks[k] == w.tasks[k]
  {
    hide Forward, Anchored, TaskRight, StageTurn, Found, M.CanStage, M.Staged, ReportsRight, TasksRight;
    StageFrame(Found(e, t), w.s, g);
    StageCarries(e, w, g, t);
    if g.Pass? || g.PassFails? || g.GiveUp? {
      StageTurnRight(e, w, t);
      FoundTask(e, t, w.s.nextA);
      TasksTaken(e, w, t, g.Pass?);
    } else {
      TasksAlone(e, w, t);
    }
  }

  lemma TasksAlone(e: Setting, w: World, t: World)
    requires Forward(e.src) && TasksRight(e, w) && t.tasks == w.tasks && t.s.nextA == w.s.nextA
    requires t.anchor == w.anchor && t.prevTail == w.prevTail && (t.s.stageA ==> w.s.stageA)
    ensures TasksRight(e, t)
  {
    hide Forward, Anchored, TaskRight;
  }

  /** Stage A after its turn: one chunk further, or gone. */
  lemma TasksTaken(e: Setting, w: World, t: World, passed: bool)
    requires Forward(e.src) && TasksRight(e, w) && w.s.stageA && w.s.nextA < |e.hints|
    requires w.s.nextA in t.tasks && TaskRight(e, w.s.nextA, t.tasks[w.s.nextA])
    requires t.tasks == w.tasks[w.s.nextA := t.tasks[w.s.nextA]]
    requires t.s.nextA == w.s.nextA + if passed then 1 else 0
    requires passed ==> t.tasks[w.s.nextA].Ok?
    requires t.s.stageA ==> passed && Anchored(e.src, e.hints, w.s.nextA + 1, t.anchor, t.prevTail)
    requires !passed ==> !t.s.stageA
    requires passed ==> t.s.stageA == !t.tasks[w.s.nextA].value.final
    ensures TasksRight(e, t)
  {
    hide Forward, Anchored, TaskRight;
  }

  lemma TasksKept(e: Setting, w: World, a: M.Action, t: World)
    requires Forward(e.src) && ReportsRight(e, w) && TasksRight(e, w) && WorldStep(e, w, a, t)
    ensures TasksRight(e, t)
    ensures forall k | k in w.tasks :: k in t.tasks && t.tasks[k] == w.tasks[k]
  {
    hide Forward, Anchored, TaskRight, Carries, Found, M.Dispatched, M.Worked, M.Staged,
      M.ResolvedTo, M.OutputTo, M.CanDispatch, M.CanWork, M.CanStage, M.CanResolve, M.CanOutput;
    var c := Found(e, t);
    match a {
      case Dispatch(d) =>
        DispatchFrame(w.s, d);
        WorkCarries(e, w, a, t);
      case Work(r) =>
        WorkFrame(c, w.s, r);
        WorkCarries(e, w, a, t);
      case Stage(g) => TasksKeptByStage(e, w, g, t);
      case Resolve(r) =>
        ResolveFrame(c, w.s, r);
        ResolverCarries(e, w, r, t);
      case Output(o) =>
        OutputFrame(c, w.s, o);
        OutputCarries(e, w, o, t);
    }
  }

  /** What was made of a task stands, since the task does. */
  lemma DonesStand(e: Setting, w: World, t: World)
    requires Forward(e.src) && DonesRight(e, w) && t.s.nextA >= w.s.nextA
    requires forall k | k in w.tasks :: k in t.tasks && t.tasks[k] == w.tasks[k]
    requires t.dones == w.dones
    ensures DonesKnown(e, t)
  {
    hide ResolverAnswers, TaskRight;
    forall k | k in w.dones ensures DoneRight(e, t, k) { assert DoneRight(e, w, k); }
  }

  /** A chunk is in one place only. */
  lemma OnePlace(s: M.State, id: nat)
    requires M.Conserved(s) && id in s.resolving
    ensures id < s.nextA && id !in s.jobs && s.resolving[id] == 1
  {
    hide M.Range, M.IdsOf;
    M.RangeHas(s.nextB, s.nextA, id);
    assert M.Downstream(s)[id] <= M.Range(s.nextB, s.nextA)[id];
  }

  /** A resolver comes to a chunk once, with the right task in hand. */
  lemma ResolverTurnRight(e: Setting, w: World, id: nat, t: World)
    requires Forward(e.src) && M.Conserved(w.s) && TasksRight(e, w) && DonesRight(e, w) && id in w.s.resolving
    requires ResolverTurn(e, w, id, t)
    ensures id !in w.dones && DoneRight(e, t, id) && t.dones == w.dones[id := t.dones[id]]
  {
    hide Forward, Anchored, RightTask, ResolverAnswers, M.Conserved, DoneRight;
    OnePlace(w.s, id);
    assert TaskRight(e, id, w.tasks[id]);
    TurnDone(e, w, id, t);
  }

  lemma TurnDone(e: Setting, w: World, id: nat, t: World)
    requires Forward(e.src) && ResolverTurn(e, w, id, t)
    requires id in w.tasks && w.tasks[id].Ok? && TaskRight(e, id, w.tasks[id])
    ensures DoneRight(e, t, id)
  {
    hide Forward, RightTask, ResolverAnswers;
  }

  lemma DonesKeptByResolver(e: Setting, w: World, r: M.ResolverStep, t: World)
    requires Forward(e.src) && M.Conserved(w.s) && TasksRight(e, w) && DonesRight(e, w)
    requires WorldStep(e, w, M.Resolve(r), t)
    ensures DonesRight(e, t)
    ensures forall k | k in w.dones :: k in t.dones && t.dones[k] == w.dones[k]
  {
    hide Forward, TasksRight, DoneRight, M.Conserved, M.IdsOf, M.CanResolve, M.ResolvedTo, Found, ResolverTurn;
    ResolveFrame(Found(e, t), w.s, r);
    ResolverCarries(e, w, r, t);
    if r.Finish? {
      FinishKept(e, w, r.id, t);
    } else {
      DonesStand(e, w, t);
    }
  }

  lemma FinishKept(e: Setting, w: World, id: nat, t: World)
    requires Forward(e.src) && M.Conserved(w.s) && TasksRight(e, w) && DonesRight(e, w)
    requires WorldStep(e, w, M.Resolve(M.Finish(id)), t)
    ensures DonesRight(e, t)
    ensures forall k | k in w.dones :: k in t.dones && t.dones[k] == w.dones[k]
  {
    hide Forward, TasksRight, DoneRight, DonesPlaced, M.Conserved, M.IdsOf, M.CanResolve, M.ResolvedTo, Found,
      ResolverTurn;
    ResolveFrame(Found(e, t), w.s, M.Finish(id));
    ResolverCarries(e, w, M.Finish(id), t);
    ResolverTurnRight(e, w, id, t);
    FoundDone(e, t, id);
    OnePlace(w.s, id);
    FinishPlaced(w.s, t.s, id, w.dones, t.dones);
    forall k | k in t.dones ensures k < t.s.nextA && DoneRight(e, t, k) {
      if k != id { DoneStays(e, w, t, k); }
    }
  }

  /** A chunk that is finished is with the resolvers no more, and among the messages when it went well. */
  lemma FinishPlaced(s: M.State, t: M.State, id: nat, dones: map<nat, Result<Done>>, dones': map<nat, Result<Done>>)
    requires M.Conserved(s) && id in s.resolving && DonesPlaced(s, dones)
    requires id in dones' && dones' == dones[id := dones'[id]]
    requires t.jobs == s.jobs && t.resolving == s.resolving - multiset{id} && t.reorderB == s.reorderB
    requires t.done == s.done + [if dones'[id].Ok? then M.Message.Chunk(id) else M.Message.Error]
    ensures DonesPlaced(t, dones')
  {
    hide M.Conserved, M.IdsOf;
    OnePlace(s, id);
    M.IdsOfSnoc(s.done, if dones'[id].Ok? then M.Message.Chunk(id) else M.Message.Error);
  }

  lemma DoneStays(e: Setting, w: World, t: World, k: nat)
    requires Forward(e.src) && k in w.dones && DoneRight(e, w, k)
    requires k in t.dones && t.dones[k] == w.dones[k] && t.tasks == w.tasks
    ensures DoneRight(e, t, k)
  {
    hide ResolverAnswers, TaskRight;
  }

  lemma DonesKept(e: Setting, w: World, a: M.Action, t: World)
    requires Forward(e.src) && M.Conserved(w.s) && ReportsRight(e, w) && TasksRight(e, w) && DonesRight(e, w)
    requires WorldStep(e, w, a, t)
    ensures DonesRight(e, t)
    ensures forall k | k in w.dones :: k in t.dones && t.dones[k] == w.dones[k]
  {
    hide Forward, DoneRight, DonesKnown, DonesPlaced, TasksRight, ReportsRight, M.Conserved, M.IdsOf, Carries, Found,
      M.Dispatched, M.Worked, M.Staged, M.ResolvedTo, M.OutputTo, M.CanDispatch, M.CanWork, M.CanStage, M.CanResolve,
      M.CanOutput;
    var c := Found(e, t);
    TasksKept(e, w, a, t);
    match a {
      case Dispatch(d) =>
        DispatchFrame(w.s, d);
        WorkCarries(e, w, a, t);
        PlacedSame(w.s, t.s, w.dones);
        DonesStand(e, w, t);
      case Work(r) =>
        WorkFrame(c, w.s, r);
        WorkCarries(e, w, a, t);
        PlacedSame(w.s, t.s, w.dones);
        DonesStand(e, w, t);
      case Stage(g) =>
        StageFrame(c, w.s, g);
        StageCarries(e, w, g, t);
        NotYetDone(e, w);
        PlacedStage(c, w.s, g, w.dones);
        DonesStand(e, w, t);
      case Resolve(r) => DonesKeptByResolver(e, w, r, t);
      case Output(o) =>
        OutputFrame(c, w.s, o);
        OutputCarries(e, w, o, t);
        PlacedOutput(c, w.s, o, w.dones);
        DonesStand(e, w, t);
    }
  }

  lemma NotYetDone(e: Setting, w: World)
    requires Forward(e.src) && DonesKnown(e, w)
    ensures w.s.nextA !in w.dones
  {
  }

  lemma PlacedSame(s: M.State, t: M.State, dones: map<nat, Result<Done>>)
    requires DonesPlaced(s, dones)
    requires t.jobs == s.jobs && t.resolving == s.resolving && t.done == s.done && t.reorderB == s.reorderB
    ensures DonesPlaced(t, dones)
  {
  }

  lemma PlacedStage(c: M.Config, s: M.State, g: M.StageStep, dones: map<nat, Result<Done>>)
    requires DonesPlaced(s, dones) && M.CanStage(c, s, g) && s.nextA !in dones
    ensures DonesPlaced(M.Staged(c, s, g), dones)
  {
    hide M.CanStage, M.Staged, M.IdsOf;
    StageFrame(c, s, g);
    M.IdsOfSnoc(s.done, M.Message.Error);
  }

  lemma PlacedOutput(c: M.Config, s: M.State, o: M.OutputStep, dones: map<nat, Result<Done>>)
    requires DonesPlaced(s, dones) && M.CanOutput(c, s, o)
    ensures DonesPlaced(M.OutputTo(c, s, o), dones)
  {
    hide M.CanOutput, M.OutputTo, M.IdsOf;
    if o.Collect? {
      PlacedCollect(c, s, dones);
    } else {
      OutputFrame(c, s, o);
    }
  }

  lemma PlacedCollect(c: M.Config, s: M.State, dones: map<nat, Result<Done>>)
    requires DonesPlaced(s, dones) && M.CanOutput(c, s, M.Collect)
    ensures DonesPlaced(M.OutputTo(c, s, M.Collect), dones)
  {
    hide M.IdsOf;
    M.IdsOfHead(s.done);
  }

  lemma StitchedIsChecked(h: Hasher, s: ChainState, cur: (nat, nat))
    requires s.Running? && Stitched(h, s.out, s.bounds, cur)
    ensures StateChecked(h, s)
  {
  }

  /** The output's next chunk is as its contract asks for. */
  lemma OutputIsReady(e: Setting, w: World)
    requires Forward(e.src) && DonesRight(e, w) && SinkRight(e, w)
    requires w.s.ending.None? && w.s.nextB in w.s.reorderB
    ensures OutputReady(e, w, w.s.nextB) && w.s.nextB < |e.hints| && w.s.nextB in w.dones
    ensures w.dones[w.s.nextB].value.id == w.s.nextB && w.dones[w.s.nextB].Ok?
    ensures w.s.nextB in w.tasks && w.tasks[w.s.nextB].Ok?
    ensures w.tasks[w.s.nextB].value.final == w.dones[w.s.nextB].value.final
  {
    hide Forward, RightTask, Midway, RightDone, SinkHolds;
    var k := w.s.nextB;
    assert k in w.dones && DoneRight(e, w, k);
  }

  /** The contract at work: a chunk that went out is in the sink. */
  lemma OutputTurnRight(e: Setting, w: World, t: World)
    requires Forward(e.src) && DonesRight(e, w) && SinkRight(e, w)
    requires w.s.ending.None? && w.s.nextB in w.s.reorderB && OutputTurn(e, w, t)
    ensures w.s.nextB in w.dones && w.dones[w.s.nextB].Ok?
    ensures w.s.nextB < |e.hints| && w.s.nextB !in w.checked
    ensures t.checked == w.checked[w.s.nextB := t.checked[w.s.nextB]]
    ensures OutputAnswers(e.src, e.hints, e.h, w.dones[w.s.nextB].value, w.sink, t.s.ending, t.cur, t.sink)
    ensures w.dones[w.s.nextB].value.id == w.s.nextB == |w.sink|
  {
    hide Forward, OutputReady, OutputAnswers, DonesRight, SinkHolds, Midway, StateChecked;
    OutputIsReady(e, w);
  }

  lemma SinkKeptByOutput(e: Setting, w: World, o: M.OutputStep, t: World)
    requires Forward(e.src) && TasksRight(e, w) && DonesRight(e, w) && SinkRight(e, w)
    requires WorldStep(e, w, M.Output(o), t) && (o.Emit? || o.EmitFails?)
    ensures SinkRight(e, t)
    ensures forall k | k in w.checked :: k in t.checked && t.checked[k] == w.checked[k]
  {
    hide Forward, TasksRight, DonesRight, OutputTurn, M.CanOutput, M.OutputTo, Found, OutputAnswers, SinkHolds,
      Midway, StateChecked;
    var k := w.s.nextB;
    OutputFrame(Found(e, t), w.s, o);
    OutputEnding(Found(e, t), w.s, o);
    OutputTurnRight(e, w, t);
    FoundChecked(e, t, k);
    AnswerKeeps(e, w.dones[k].value, w.sink, t.s.ending, t.cur, t.sink);
  }

  /** What the output's answer says of the sink. */
  lemma AnswerKeeps(e: Setting, d: Done, sink0: seq<seq<u8>>, stop: Option<Ending>, cur: (nat, nat),
                    sink: seq<seq<u8>>)
    requires Forward(e.src) && d.id == |sink0| < |e.hints| && SinkHolds(e.src, e.hints, sink0)
    requires OutputAnswers(e.src, e.hints, e.h, d, sink0, stop, cur, sink)
    ensures SinkHolds(e.src, e.hints, sink)
    ensures stop.Some? ==> stop.value in {Success, BadMember, SinkClosed}
    ensures StateChecked(e.h, ChainTo(e.src, e.hints, d.id + 1)) <==> stop != Some(BadMember)
    ensures |sink| == |sink0| + (if stop.None? || stop == Some(Success) then 1 else 0)
    ensures stop.None? ==> Midway(e.src, e.hints, e.h, sink, cur)
  {
    hide Forward, ChainTo, SinkHolds, Stitched, StateChecked;
    var next := ChainTo(e.src, e.hints, d.id + 1);
    if stop.None? { StitchedIsChecked(e.h, next, cur); }
  }

  lemma SinkKept(e: Setting, w: World, a: M.Action, t: World)
    requires Forward(e.src) && TasksRight(e, w) && DonesRight(e, w) && SinkRight(e, w) && WorldStep(e, w, a, t)
    ensures SinkRight(e, t)
    ensures forall k | k in w.checked :: k in t.checked && t.checked[k] == w.checked[k]
  {
    hide Forward, DonesRight, TasksRight, Carries, Found, M.Dispatched, M.Worked, SinkHolds, Midway, StateChecked,
      ChainTo, M.Staged, M.ResolvedTo, M.OutputTo, M.CanDispatch, M.CanWork, M.CanStage, M.CanResolve, M.CanOutput;
    var c := Found(e, t);
    match a {
      case Dispatch(d) =>
        DispatchFrame(w.s, d);
        WorkCarries(e, w, a, t);
      case Work(r) =>
        WorkFrame(c, w.s, r);
        WorkCarries(e, w, a, t);
      case Stage(g) =>
        StageFrame(c, w.s, g);
        StageCarries(e, w, g, t);
      case Resolve(r) =>
        ResolveFrame(c, w.s, r);
        ResolverCarries(e, w, r, t);
      case Output(o) =>
        if o.Emit? || o.EmitFails? {
          SinkKeptByOutput(e, w, o, t);
        } else {
          OutputFrame(c, w.s, o);
          OutputCarries(e, w, o, t);
        }
    }
  }

  /** Every step keeps what is known, and leaves standing what has been found. */
  lemma WorldKept(e: Setting, w: World, a: M.Action, t: World)
    requires Forward(e.src) && WorldInv(e, w) && WorldStep(e, w, a, t)
    ensures WorldInv(e, t) && Grown(w, t)
  {
    hide Forward, M.Accounts, M.Conserved, ReportsRight, TasksRight, DonesRight, SinkRight, WorldStep, Found;
    MachineKept(e, w, a, t);
    ReportsKept(e, w, a, t);
    TasksKept(e, w, a, t);
    DonesKept(e, w, a, t);
    SinkKept(e, w, a, t);
  }

  // A run of the threads is a run of the machine

  ghost predicate WorldRun(e: Setting, ws: seq<World>, steps: seq<M.Action>)
    requires Forward(e.src)
  {
    && |ws| == |steps| + 1 && ws[0] == StartWorld(e)
    && forall i | 0 <= i < |steps| :: WorldStep(e, ws[i], steps[i], ws[i + 1])
  }

  /** A step looks only at the verdict on the chunk it is about. */
  lemma SameStep(c: M.Config, d: M.Config, s: M.State, a: M.Action)
    requires c.n == d.n && c.room == d.room && c.max == d.max && M.Enabled(c, s, a)
    requires a.Stage? && (a.a.Pass? || a.a.PassFails? || a.a.GiveUp?) ==>
      (c.decodes(s.nextA) <==> d.decodes(s.nextA)) && (a.a.Pass? ==> (c.final(s.nextA) <==> d.final(s.nextA)))
    requires a.Resolve? && a.r.Finish? ==> (c.resolves(a.r.id) <==> d.resolves(a.r.id))
    requires a.Output? && (a.o.Emit? || a.o.EmitFails?) ==>
      (c.checks(s.nextB) <==> d.checks(s.nextB)) && (c.final(s.nextB) <==> d.final(s.nextB))
    ensures M.Enabled(d, s, a) && M.After(d, s, a) == M.After(c, s, a)
  {
    match a {
      case Dispatch(_) =>
      case Work(_) =>
      case Stage(g) => SameStage(c, d, s, g);
      case Resolve(r) => SameResolve(c, d, s, r);
      case Output(o) => SameOutput(c, d, s, o);
    }
  }

  lemma SameStage(c: M.Config, d: M.Config, s: M.State, g: M.StageStep)
    requires c.room == d.room && M.CanStage(c, s, g)
    requires g.Pass? || g.PassFails? || g.GiveUp? ==>
      (c.decodes(s.nextA) <==> d.decodes(s.nextA)) && (g.Pass? ==> (c.final(s.nextA) <==> d.final(s.nextA)))
    ensures M.CanStage(d, s, g) && M.Staged(d, s, g) == M.Staged(c, s, g)
  {
  }

  lemma SameResolve(c: M.Config, d: M.Config, s: M.State, r: M.ResolverStep)
    requires c.room == d.room && M.CanResolve(c, s, r)
    requires r.Finish? ==> (c.resolves(r.id) <==> d.resolves(r.id))
    ensures M.CanResolve(d, s, r) && M.ResolvedTo(d, s, r) == M.ResolvedTo(c, s, r)
  {
  }

  lemma SameOutput(c: M.Config, d: M.Config, s: M.State, o: M.OutputStep)
    requires c.n == d.n && M.CanOutput(c, s, o)
    requires o.Emit? || o.EmitFails? ==>
      (c.checks(s.nextB) <==> d.checks(s.nextB)) && (c.final(s.nextB) <==> d.final(s.nextB))
    ensures M.CanOutput(d, s, o) && M.OutputTo(d, s, o) == M.OutputTo(c, s, o)
  {
  }

  lemma StageAgrees(e: Setting, w: World, g: M.StageStep, t: World, z: World)
    requires Forward(e.src) && WorldStep(e, w, M.Stage(g), t) && Grown(t, z)
    ensures M.CanStage(Found(e, z), w.s, g) && M.Staged(Found(e, z), w.s, g) == t.s
  {
    hide Forward, StageReady, StageAnswers, M.CanStage, M.Staged, Verdicts;
    var k := w.s.nextA;
    StageFrame(Found(e, t), w.s, g);
    if g.Pass? || g.PassFails? || g.GiveUp? {
      FoundTask(e, t, k);
      FoundTask(e, z, k);
    }
    SameStage(Found(e, t), Found(e, z), w.s, g) by { SameSizes(e, t, z); }
  }

  lemma SameSizes(e: Setting, w: World, z: World)
    requires Forward(e.src)
    ensures var c, d := Found(e, w), Found(e, z);
      && c.n == d.n == |e.hints| && c.room == d.room == e.room && c.max == d.max == e.max
      && c.workers == d.workers == e.workers && c.resolvers == d.resolvers == e.resolvers
  {
  }

  lemma ResolverAgrees(e: Setting, w: World, r: M.ResolverStep, t: World, z: World)
    requires Forward(e.src) && WorldStep(e, w, M.Resolve(r), t) && Grown(t, z)
    ensures M.CanResolve(Found(e, z), w.s, r) && M.ResolvedTo(Found(e, z), w.s, r) == t.s
  {
    hide Forward, RightTask, ResolverAnswers, M.CanResolve, M.ResolvedTo, Verdicts;
    if r.Finish? {
      FoundDone(e, t, r.id);
      FoundDone(e, z, r.id);
    }
    SameResolve(Found(e, t), Found(e, z), w.s, r) by { SameSizes(e, t, z); }
  }

  lemma OutputAgrees(e: Setting, w: World, o: M.OutputStep, t: World, z: World)
    requires Forward(e.src) && DonesRight(e, w) && SinkRight(e, w)
    requires WorldStep(e, w, M.Output(o), t) && Grown(t, z)
    ensures M.CanOutput(Found(e, z), w.s, o) && M.OutputTo(Found(e, z), w.s, o) == t.s
  {
    hide Forward, DonesRight, SinkRight, OutputReady, OutputAnswers, M.CanOutput, M.OutputTo, Verdicts;
    var k := w.s.nextB;
    OutputFrame(Found(e, t), w.s, o);
    if o.Emit? || o.EmitFails? {
      OutputIsReady(e, w);
      OutputCarries(e, w, o, t);
      FoundChecked(e, t, k);
      FoundChecked(e, z, k);
      FoundTask(e, t, k);
      FoundTask(e, z, k);
    }
    SameOutput(Found(e, t), Found(e, z), w.s, o) by { SameSizes(e, t, z); }
  }

  lemma OthersAgree(c: M.Config, d: M.Config, s: M.State, a: M.Action)
    requires c.n == d.n && c.room == d.room && c.max == d.max && M.Enabled(c, s, a) && (a.Dispatch? || a.Work?)
    ensures M.Enabled(d, s, a) && M.After(d, s, a) == M.After(c, s, a)
  {
  }

  /** What was found stays found, so each step is one under the findings at the end. */
  lemma StepAsFound(e: Setting, w: World, a: M.Action, t: World, z: World)
    requires Forward(e.src) && DonesRight(e, w) && SinkRight(e, w) && WorldStep(e, w, a, t) && Grown(t, z)
    ensures M.Enabled(Found(e, z), w.s, a) && M.After(Found(e, z), w.s, a) == t.s
  {
    hide Forward, DonesRight, SinkRight, Grown, Carries, Found, M.CanStage, M.Staged, M.CanResolve, M.ResolvedTo,
      M.CanOutput, M.OutputTo, M.CanDispatch, M.CanWork, M.Dispatched, M.Worked;
    match a {
      case Stage(g) => StageAgrees(e, w, g, t, z);
      case Resolve(r) => ResolverAgrees(e, w, r, t, z);
      case Output(o) => OutputAgrees(e, w, o, t, z);
      case _ =>
        SameSizes(e, t, z);
        OthersAgree(Found(e, t), Found(e, z), w.s, a);
    }
  }

  lemma StartInv(e: Setting)
    requires Proper(e)
    ensures WorldInv(e, StartWorld(e))
  {
    hide Forward, Plausible, Lawful, PositionsFit, Anchored, Through, StateChecked, Midway;
    var w := StartWorld(e);
    StartsEmpty(Found(e, w));
    AnchoredAtStart(e.src, e.hints);
    OutputStart(e.src, e.hints, e.h, []);
    MidwayOpen(e.src, e.hints, e.h, [], w.cur);
  }

  lemma StartsEmpty(c: M.Config)
    ensures M.Accounts(c, M.Start(c)) && M.Conserved(M.Start(c))
    ensures var s := M.Start(c);
      && s.results == [] && s.reorderA == multiset{} && s.stageA && s.nextA == 0 && s.jobs == []
      && s.resolving == multiset{} && s.done == [] && M.IdsOf(s.done) == multiset{}
      && s.ending == None && s.reorderB == multiset{} && s.nextB == 0
  {
  }

  lemma {:induction false} RunInv(e: Setting, ws: seq<World>, steps: seq<M.Action>, i: nat)
    requires Proper(e) && WorldRun(e, ws, steps) && i <= |steps|
    ensures WorldInv(e, ws[i])
  {
    hide Plausible, Lawful, PositionsFit, WorldInv, WorldStep, StartWorld, Forward;
    if i == 0 {
      StartInv(e);
    } else {
      RunInv(e, ws, steps, i - 1);
      assert WorldStep(e, ws[i - 1], steps[i - 1], ws[i - 1 + 1]);
      WorldKept(e, ws[i - 1], steps[i - 1], ws[i]);
    }
  }

  lemma {:induction false} RunGrown(e: Setting, ws: seq<World>, steps: seq<M.Action>, i: nat)
    requires Proper(e) && WorldRun(e, ws, steps) && i <= |steps|
    ensures Grown(ws[i], ws[|steps|])
    decreases |steps| - i
  {
    hide Plausible, Lawful, PositionsFit, WorldInv, WorldStep, StartWorld, Forward;
    if i < |steps| {
      RunInv(e, ws, steps, i);
      WorldKept(e, ws[i], steps[i], ws[i + 1]);
      RunGrown(e, ws, steps, i + 1);
    }
  }

  /** The ids of a run of the threads go through a run of the machine. */
  lemma {:induction false} RunAsFound(e: Setting, ws: seq<World>, steps: seq<M.Action>, i: nat)
    requires Proper(e) && WorldRun(e, ws, steps) && i <= |steps|
    ensures M.Run(Found(e, ws[|steps|]), ws[i].s, steps[i..]) == Some(ws[|steps|].s)
    decreases |steps| - i
  {
    hide Plausible, Lawful, PositionsFit, WorldStep, StartWorld, Forward, M.Accounts, M.Conserved, ReportsRight,
      TasksRight, DonesRight, SinkRight, Found, M.Enabled, M.After, Grown;
    if i < |steps| {
      RunInv(e, ws, steps, i);
      RunGrown(e, ws, steps, i + 1);
      StepAsFound(e, ws[i], steps[i], ws[i + 1], ws[|steps|]);
      RunAsFound(e, ws, steps, i + 1);
      assert steps[i..][0] == steps[i] && steps[i..][1..] == steps[i + 1..];
    }
  }

  // The findings follow the chain

  /** A chunk that was resolved has taken the chain on. */
  lemma ResolvedIsThrough(e: Setting, w: World, k: nat)
    requires Forward(e.src) && k < |e.hints| && ChainTo(e.src, e.hints, k).Running?
    requires k in w.dones && DoneRight(e, w, k)
    ensures if w.dones[k].Ok? then Through(e, k) else Pipeline(e.src, e.hints) == PipelineResult.Failed
  {
    hide Forward, RightTask, ChainTo, ChainFrom, PiecesOf, PieceIs, Part, Shift;
  }

  lemma NotThroughFails(e: Setting, k: nat)
    requires Forward(e.src) && k < |e.hints| && ChainTo(e.src, e.hints, k).Running? && !Through(e, k)
    ensures Pipeline(e.src, e.hints) == PipelineResult.Failed
  {
    hide Forward, ChainTo, ChainFrom;
    ChainToIs(e.src, e.hints, k + 1);
  }

  /** A task is final when its chunk ends the chain. */
  lemma FinalEnds(e: Setting, k: nat, t: Task)
    requires Forward(e.src) && Through(e, k) && t.id == k && RightTask(e.src, e.hints, t)
    ensures t.final <==> ChainTo(e.src, e.hints, k + 1).Over?
  {
    hide Forward, ChunkFrom, Resolvable, Tail, Shift, Ordered, MarksFit;
  }

  lemma FollowsWhereFound(e: Setting, w: World, k: nat)
    requires Forward(e.src) && TasksRight(e, w) && DonesKnown(e, w) && SinkRight(e, w) && k < |e.hints|
    ensures Delivery.FollowsAt(Found(e, w), e.src, e.hints, e.h, k)
  {
    hide Forward, Anchored, SinkHolds, Midway, StateChecked, ChainTo, ChainFrom, RightTask, DoneRight;
    if ChainTo(e.src, e.hints, k).Running? {
      if !Through(e, k) { NotThroughFails(e, k); }
      if k in w.dones { ResolvedIsThrough(e, w, k); }
      if k in w.tasks {
        assert TaskRight(e, k, w.tasks[k]);
        if w.tasks[k].Ok? && Through(e, k) { FinalEnds(e, k, w.tasks[k].value); }
      }
    }
  }

  lemma FoundFollows(e: Setting, w: World)
    requires Forward(e.src) && TasksRight(e, w) && DonesKnown(e, w) && SinkRight(e, w)
    ensures Delivery.Follows(Found(e, w), e.src, e.hints, e.h)
  {
    hide Forward, TasksRight, DonesKnown, SinkRight, Delivery.FollowsAt;
    forall k: nat | k < |e.hints| ensures Delivery.FollowsAt(Found(e, w), e.src, e.hints, e.h, k) {
      FollowsWhereFound(e, w, k);
    }
  }

  // Every contract can be met, so the threads go on whenever the machine does

  ghost predicate CanGoOn(e: Setting, w: World)
    requires Forward(e.src)
  {
    exists a, t :: WorldStep(e, w, a, t)
  }

  lemma GoesOn(e: Setting, w: World, a: M.Action, t: World)
    requires Forward(e.src) && WorldStep(e, w, a, t)
    ensures CanGoOn(e, w)
  {
  }

  /** Stage A has an answer to any chunk: a task when the chain goes on with it, otherwise an error. */
  lemma StageCanAnswer(e: Setting, k: nat, anchor: nat, prevTail: seq<u8>) returns (r: Result<(Task, nat, seq<u8>)>)
    requires Proper(e) && k < |e.hints| && Anchored(e.src, e.hints, k, anchor, prevTail)
    ensures StageAnswers(e.src, e.hints, k, prevTail, r) && (r.Ok? <==> Through(e, k))
  {
    hide Forward, ChunkFrom, ChainFrom, Resolvable, Resolved, Tail, Shift, Ordered, MarksFit, Plausible, Lawful;
    ChainToIs(e.src, e.hints, k);
    ChainToIs(e.src, e.hints, k + 1);
    if Through(e, k) {
      var s := ChainTo(e.src, e.hints, k);
      var c := ChunkAt(e.src, anchor, e.hints[k]);
      OrderedNone();
      ChunkOrdered(e.src, anchor, e.hints[k], true, [], []);
      ChunkEnds(e.src, anchor, e.hints[k], true, [], []);
      var tail := Tail(s.out + Resolved(c.cells, Tail(s.out)));
      assert MarksFit(c.cells);
      r := Ok((Task(k, c.cells, prevTail, c.final, c.bounds), c.end, tail));
    } else {
      r := Err(Invalid);
    }
  }

  /** And so has a resolver to any task. */
  lemma ResolverCanAnswer(e: Setting, t: Task) returns (r: Result<Done>)
    requires Forward(e.src) && RightTask(e.src, e.hints, t)
    ensures ResolverAnswers(e.src, e.hints, e.h, t, r)
  {
    hide Forward, ChunkFrom, ChainFrom, Tail, Shift, MarksFit;
    ChainToIs(e.src, e.hints, t.id + 1);
    if Through(e, t.id) {
      var bytes := Resolved(t.cells, t.prevTail);
      var pieces := seq(|t.bounds|, i requires 0 <= i < |t.bounds| => PieceFor(e.h, Part(bytes, t.bounds, i)));
      r := Ok(Done(t.id, bytes, t.final, t.bounds, pieces, PieceFor(e.h, Part(bytes, t.bounds, |t.bounds|))));
    } else {
      r := Err(Invalid);
    }
  }

  function PieceFor(h: Hasher, part: seq<u8>): (piece: (nat, nat))
    ensures PieceIs(h, part, piece)
  {
    (h.of(part), |part|)
  }

  /** And so has the output to any chunk: the last one, or a further one, or one with a wrong member. */
  lemma OutputCanAnswer(e: Setting, d: Done, sink: seq<seq<u8>>)
      returns (stop: Option<Ending>, cur: (nat, nat), sink': seq<seq<u8>>)
    requires Forward(e.src) && RightDone(e.src, e.hints, e.h, d) && d.id == |sink| && SinkHolds(e.src, e.hints, sink)
    requires ChainTo(e.src, e.hints, d.id).Running?
    ensures OutputAnswers(e.src, e.hints, e.h, d, sink, stop, cur, sink')
    ensures stop == if !StateChecked(e.h, ChainTo(e.src, e.hints, d.id + 1)) then Some(BadMember)
                    else if d.final then Some(Success) else None
  {
    hide Forward, ChainTo, SinkHolds, Shift, PiecesOf, PieceIs, Part;
    var next := ChainTo(e.src, e.hints, d.id + 1);
    stop, cur, sink' := Some(BadMember), (0, 0), sink;
    if StateChecked(e.h, next) {
      SinkStep(e.src, e.hints, sink, d);
      sink' := sink + [d.bytes];
      if next.Running? {
        cur := PieceFor(e.h, Part(next.out, next.bounds, |next.bounds|));
        stop := None;
      } else {
        stop := Some(Success);
      }
    }
  }

  lemma FreeStep(e: Setting, w: World, a: M.Action)
    requires Forward(e.src) && M.Enabled(Found(e, w), w.s, a)
    requires !(a.Work? && a.w.Report?) && !(a.Stage? && (a.a.Pass? || a.a.PassFails? || a.a.GiveUp?))
    requires !(a.Resolve? && a.r.Finish?) && !(a.Output? && (a.o.Emit? || a.o.EmitFails?))
    ensures CanGoOn(e, w)
  {
    hide M.Enabled, M.After, Verdicts, Forward;
    var t := w.(s := M.After(Found(e, w), w.s, a));
    assert Found(e, t) == Found(e, w);
    GoesOn(e, w, a, t);
  }

  lemma BusyInRange(c: M.Config, s: M.State, id: nat)
    requires M.Accounts(c, s) && M.Conserved(s) && id in s.busy
    ensures id < c.n
  {
    hide M.Range;
    M.RangeHas(s.nextA, s.next, id);
    assert M.Upstream(s)[id] <= M.Range(s.nextA, s.next)[id];
  }

  lemma WorkerGoesOn(e: Setting, w: World, id: nat)
    requires Forward(e.src) && WorldInv(e, w) && M.CanWork(Found(e, w), w.s, M.Report(id))
    ensures CanGoOn(e, w)
  {
    hide Forward, M.Worked, M.Accounts, M.Conserved, ReportsRight, TasksRight, DonesRight, SinkRight, Verdicts;
    BusyInRange(Found(e, w), w.s, id);
    SameSizes(e, w, w);
    var t := w.(s := M.Worked(Found(e, w), w.s, M.Report(id)),
                reports := w.reports[id := Report(id, 0, e.hints[id], Err(Invalid))]);
    assert Found(e, t) == Found(e, w);
    GoesOn(e, w, M.Work(M.Report(id)), t);
  }

  lemma StageGoesOn(e: Setting, w: World, g: M.StageStep)
    requires Proper(e) && WorldInv(e, w) && M.CanStage(Found(e, w), w.s, g)
    requires g.Pass? || g.PassFails? || g.GiveUp?
    ensures CanGoOn(e, w)
  {
    hide Plausible, Lawful, PositionsFit, Forward, M.Accounts, M.Conserved, DonesRight, SinkRight, StageAnswers,
      M.Staged, Anchored, GenuineReport;
    var k := w.s.nextA;
    assert k in w.reports && k !in w.tasks && GenuineReport(e.src, e.hints, w.reports[k]);
    ReportInRange(e, w.reports[k]);
    var r := StageCanAnswer(e, k, w.anchor, w.prevTail);
    StageFrame(Found(e, w), w.s, g);
    match r {
      case Ok((x, end, tail)) => StageTakes(e, w, g, Ok(x), end, tail);
      case Err(x) => StageTakes(e, w, g, Err(x), 0, []);
    }
  }

  lemma StageTakes(e: Setting, w: World, g: M.StageStep, made: Result<Task>, end: nat, tail: seq<u8>)
    requires Forward(e.src) && M.CanStage(Found(e, w), w.s, g) && (g.Pass? || g.PassFails? || g.GiveUp?)
    requires w.s.nextA < |e.hints| && (made.Ok? <==> !g.GiveUp?)
    requires StageAnswers(e.src, e.hints, w.s.nextA, w.prevTail, Made(made, end, tail))
    ensures CanGoOn(e, w)
  {
    hide Forward, StageAnswers, M.Staged, M.CanStage, StageReady, Verdicts;
    var tasks := w.tasks[w.s.nextA := made];
    var c := Verdicts(e, tasks, w.dones, w.checked);
    StageFrame(Found(e, w), w.s, g);
    SameSizes(e, w, w.(tasks := tasks));
    FoundTask(e, w.(tasks := tasks), w.s.nextA);
    CanStageToo(Found(e, w), c, w.s, g);
    var t := w.(s := M.Staged(c, w.s, g), tasks := tasks, anchor := end, prevTail := tail);
    GoesOn(e, w, M.Stage(g), t);
  }

  lemma CanStageToo(c: M.Config, d: M.Config, s: M.State, g: M.StageStep)
    requires c.room == d.room && M.CanStage(c, s, g) && (c.decodes(s.nextA) <==> d.decodes(s.nextA))
    ensures M.CanStage(d, s, g)
  {
  }

  lemma ReportInRange(e: Setting, r: Report)
    requires Forward(e.src) && GenuineReport(e.src, e.hints, r)
    ensures r.id < |e.hints|
  {
  }

  lemma ResolverGoesOn(e: Setting, w: World, id: nat)
    requires Proper(e) && WorldInv(e, w) && M.CanResolve(Found(e, w), w.s, M.Finish(id))
    ensures CanGoOn(e, w)
  {
    hide Plausible, Lawful, PositionsFit, Forward, M.Accounts, M.Conserved, DonesRight, SinkRight, ReportsRight,
      ResolverAnswers, M.ResolvedTo, RightTask, Anchored;
    OnePlace(w.s, id);
    assert TaskRight(e, id, w.tasks[id]);
    var r := ResolverCanAnswer(e, w.tasks[id].value);
    var dones := w.dones[id := r];
    var c := Verdicts(e, w.tasks, dones, w.checked);
    var t := w.(s := M.ResolvedTo(c, w.s, M.Finish(id)), dones := dones);
    GoesOn(e, w, M.Resolve(M.Finish(id)), t);
  }

  lemma OutputGoesOn(e: Setting, w: World, o: M.OutputStep)
    requires Proper(e) && WorldInv(e, w) && M.CanOutput(Found(e, w), w.s, o) && (o.Emit? || o.EmitFails?)
    ensures CanGoOn(e, w)
  {
    hide Plausible, Lawful, PositionsFit, Forward, M.Accounts, M.Conserved, DonesRight, ReportsRight, TasksRight,
      SinkRight, OutputAnswers, OutputReady, Verdicts;
    OutputIsReady(e, w);
    if o.EmitFails? {
      GoneAnswer(e, w);
      OutputTakes(e, w, o, Some(SinkClosed), w.cur, w.sink);
    } else {
      var stop, cur, sink := ReadyAnswer(e, w);
      OutputTakes(e, w, o, stop, cur, sink);
    }
  }

  lemma ReadyAnswer(e: Setting, w: World) returns (stop: Option<Ending>, cur: (nat, nat), sink: seq<seq<u8>>)
    requires Forward(e.src) && OutputReady(e, w, w.s.nextB) && w.s.nextB < |e.hints|
    ensures var d := w.dones[w.s.nextB].value;
      && OutputAnswers(e.src, e.hints, e.h, d, w.sink, stop, cur, sink)
      && (stop == Some(BadMember) || stop == if d.final then Some(Success) else None)
  {
    hide Forward, RightDone, Midway, SinkHolds, OutputAnswers, ChainTo, StateChecked;
    MidwayOpen(e.src, e.hints, e.h, w.sink, w.cur);
    stop, cur, sink := OutputCanAnswer(e, w.dones[w.s.nextB].value, w.sink);
  }

  lemma OutputTakes(e: Setting, w: World, o: M.OutputStep, stop: Option<Ending>, cur: (nat, nat), sink: seq<seq<u8>>)
    requires Forward(e.src) && M.CanOutput(Found(e, w), w.s, o)
    requires var k := w.s.nextB; k in w.tasks && w.tasks[k].Ok? && k in w.dones && w.dones[k].Ok?
    requires w.dones[w.s.nextB].value.id < |e.hints|
    requires o.EmitFails? ==> stop == Some(SinkClosed)
    requires o.Emit? ==>
      stop == Some(BadMember) || stop == if w.tasks[w.s.nextB].value.final then Some(Success) else None
    requires o.Emit? || o.EmitFails?
    requires OutputAnswers(e.src, e.hints, e.h, w.dones[w.s.nextB].value, w.sink, stop, cur, sink)
    ensures CanGoOn(e, w)
  {
    hide Forward, OutputAnswers, M.OutputTo, M.CanOutput, Verdicts, OutputReady;
    var checked := w.checked[w.s.nextB := stop != Some(BadMember)];
    var z := w.(checked := checked);
    var c := Found(e, z);
    SameSizes(e, w, z);
    FoundTask(e, z, w.s.nextB);
    FoundChecked(e, z, w.s.nextB);
    CanOutputToo(Found(e, w), c, w.s, o);
    OutputEnding(c, w.s, o);
    GoesOn(e, w, M.Output(o), w.(s := M.OutputTo(c, w.s, o), cur := cur, checked := checked, sink := sink));
  }

  lemma CanOutputToo(c: M.Config, d: M.Config, s: M.State, o: M.OutputStep)
    requires c.n == d.n && M.CanOutput(c, s, o) && (o.EmitFails? ==> d.checks(s.nextB))
    ensures M.CanOutput(d, s, o)
  {
  }

  lemma GoneAnswer(e: Setting, w: World)
    requires Forward(e.src) && SinkRight(e, w) && OutputReady(e, w, w.s.nextB) && w.s.nextB < |e.hints|
    requires M.CanOutput(Found(e, w), w.s, M.EmitFails)
    ensures OutputAnswers(e.src, e.hints, e.h, w.dones[w.s.nextB].value, w.sink, Some(SinkClosed), w.cur, w.sink)
  {
    hide Forward, RightDone, Midway, SinkHolds, StateChecked, ChainTo, Through;
  }

  /** Whenever the machine has a step under what has been found, some thread has one. */
  lemma ThreadsGoOn(e: Setting, w: World)
    requires Proper(e) && WorldInv(e, w) && M.CanStep(Found(e, w), w.s)
    ensures CanGoOn(e, w)
  {
    hide Plausible, Lawful, PositionsFit, WorldInv, Found, M.CanStage, M.CanResolve, M.CanOutput, M.CanDispatch,
      M.CanWork, Forward, CanGoOn;
    var a :| M.Enabled(Found(e, w), w.s, a);
    match a {
      case Work(x) => if x.Report? { WorkerGoesOn(e, w, x.id); } else { FreeStep(e, w, a); }
      case Stage(g) =>
        if g.Pass? || g.PassFails? || g.GiveUp? { StageGoesOn(e, w, g); } else { FreeStep(e, w, a); }
      case Resolve(r) => if r.Finish? { ResolverGoesOn(e, w, r.id); } else { FreeStep(e, w, a); }
      case Output(o) => if o.Emit? || o.EmitFails? { OutputGoesOn(e, w, o); } else { FreeStep(e, w, a); }
      case Dispatch(_) => FreeStep(e, w, a);
    }
  }

  // Every schedule

  /** The steps a run can have: 12 a chunk and a few for each thread. */
  function MostSteps(e: Setting): nat {
    12 * |e.hints| + e.workers + e.resolvers + 10
  }

  /** In every run, under every schedule, what is in the sink is the beginning of the chain's output, which
      is the serial decode's when that finishes; and the run is not longer than the bound. */
  lemma EveryRunIsOnTheWay(e: Setting, ws: seq<World>, steps: seq<M.Action>)
    requires Proper(e) && WorldRun(e, ws, steps)
    ensures var r := Pipeline(e.src, e.hints); r.Delivered? ==> Flat(ws[|steps|].sink) <= r.out
    ensures Serial(e.src).Finished? ==> Flat(ws[|steps|].sink) <= Serial(e.src).out
    ensures |steps| <= MostSteps(e)
  {
    hide Forward, Lawful, PositionsFit, WorldStep, StartWorld, M.Accounts, M.Conserved, ReportsRight, TasksRight,
      DonesRight, Verdicts, M.Run, M.Start, ChainTo, ChainFrom, SerialFrom, Plausible, Midway, StateChecked;
    var w := ws[|steps|];
    RunInv(e, ws, steps, |steps|);
    IsMachineRun(e, ws, steps);
    SensibleFound(e, w);
    M.EveryRun(Found(e, w), steps);
    SinkIsPrefix(e.src, e.hints, w.sink);
    if Serial(e.src).Finished? { PipelineIsSerial(e.src, e.hints); }
  }

  /** And whatever has happened, the threads come to an end: every run goes on to a full one. */
  lemma {:induction false} EveryRunEnds(e: Setting, ws: seq<World>, steps: seq<M.Action>)
      returns (all: seq<World>, full: seq<M.Action>)
    requires Proper(e) && WorldRun(e, ws, steps)
    ensures WorldRun(e, all, full) && ws <= all && steps <= full && !CanGoOn(e, all[|full|])
    decreases MostSteps(e) - |steps|
  {
    hide Forward, Lawful, PositionsFit, Plausible, WorldStep, StartWorld, MostSteps, SerialFrom, ChainFrom, Flat;
    all, full := ws, steps;
    if CanGoOn(e, ws[|steps|]) {
      var a, t :| WorldStep(e, ws[|steps|], a, t);
      EveryRunIsOnTheWay(e, ws + [t], steps + [a]);
      all, full := EveryRunEnds(e, ws + [t], steps + [a]);
    }
  }

  lemma IsMachineRun(e: Setting, ws: seq<World>, steps: seq<M.Action>)
    requires Proper(e) && WorldRun(e, ws, steps)
    ensures var c := Found(e, ws[|steps|]); M.Run(c, M.Start(c), steps) == Some(ws[|steps|].s)
  {
    hide Forward, Lawful, PositionsFit, Plausible, WorldStep, M.Run, Verdicts;
    RunAsFound(e, ws, steps, 0);
    assert steps[0..] == steps;
    SameStart(e, ws[|steps|]);
  }

  lemma SameStart(e: Setting, w: World)
    requires Forward(e.src)
    ensures StartWorld(e).s == M.Start(Found(e, w))
  {
    hide Forward;
  }

  lemma SensibleFound(e: Setting, w: World)
    requires Proper(e)
    ensures M.Sensible(Found(e, w))
    ensures Found(e, w).n == |e.hints| && Found(e, w).workers == e.workers && Found(e, w).resolvers == e.resolvers
  {
    hide Forward, Lawful, PositionsFit, Plausible;
  }

  lemma SinkIsPrefix(src: Source, hints: seq<nat>, sink: seq<seq<u8>>)
    requires Forward(src) && SinkHolds(src, hints, sink)
    ensures var r := Pipeline(src, hints); r.Delivered? ==> Flat(sink) <= r.out
  {
    hide Forward, ChainFrom, ChainTo, Flat, Ordered;
    assert sink[..|sink|] == sink;
    assert StateHolds(ChainTo(src, hints, |sink|), Flat(sink[..|sink|]));
    ChainToIs(src, hints, |sink|);
    var s := ChainTo(src, hints, |sink|);
    if s.Running? {
      Delivery.ChainOrdered(src, hints, |sink|);
      ChainFromGrows(src, hints[|sink|..], s.p, s.out, s.bounds);
    }
  }

  /** Every full run, under every schedule, with a consumer that keeps receiving: all threads have stopped;
      it has succeeded exactly when the chain delivers with all members right, and the bytes in the sink
      are then the chain's. Unless some distance leaves its member and stays inside the output of earlier
      ones, that is the serial decode and its bytes. */
  lemma EveryScheduleIsSerial(e: Setting, ws: seq<World>, steps: seq<M.Action>)
    requires Proper(e) && WorldRun(e, ws, steps) && !CanGoOn(e, ws[|steps|])
    requires ws[|steps|].s.ending != Some(SinkClosed)
    ensures var w := ws[|steps|]; var r := Pipeline(e.src, e.hints);
      && M.Quiet(w.s)
      && (w.s.ending == Some(Success) <==> r.Delivered? && Checked(e.h, r.out, r.bounds))
      && (w.s.ending == Some(Success) ==> Flat(w.sink) == r.out)
    ensures var w := ws[|steps|]; var serial := Serial(e.src);
      !(serial.Escape? && Lenient(e.src).Finished?) ==>
        && (w.s.ending == Some(Success) <==> serial.Finished? && Checked(e.h, serial.out, serial.bounds))
        && (w.s.ending == Some(Success) ==> Flat(w.sink) == serial.out)
  {
    hide Forward, Lawful, PositionsFit, WorldStep, StartWorld, M.Accounts, M.Conserved, ReportsRight, Found, CanGoOn,
      M.Run, M.Start, ChainTo, ChainFrom, SerialFrom, Plausible, Midway, StateChecked, Checked, M.CanStep, M.Quiet,
      M.Sensible, Flat, TasksRight, DonesRight;
    var w := ws[|steps|];
    var c := Found(e, w);
    RunInv(e, ws, steps, |steps|);
    FoundFollows(e, w) by { assert DonesKnown(e, w) by { KnownOf(e, w); } }
    IsMachineRun(e, ws, steps);
    SensibleFound(e, w);
    if M.CanStep(c, w.s) { ThreadsGoOn(e, w); }
    Delivery.FullRunIsChain(c, e.src, e.hints, e.h, steps);
    PipelineIsSerialExactly(e.src);
    if w.s.ending == Some(Success) {
      M.EveryRun(c, steps);
      assert |w.s.sink| == w.s.nextB == |w.sink|;
      assert w.sink[..|w.sink|] == w.sink;
      assert StateHolds(ChainTo(e.src, e.hints, |w.sink|), Flat(w.sink[..|w.sink|]));
    }
  }

  lemma KnownOf(e: Setting, w: World)
    requires Forward(e.src) && DonesRight(e, w)
    ensures DonesKnown(e, w)
  {
  }
}
