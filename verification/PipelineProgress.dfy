/** The restore pipeline makes progress: nothing blocks for good and the work left goes down. */
module PipelineProgress {
  import opened Folds
  import opened NodeSets
  import opened Polling
  import opened TaskPool
  import opened Pipeline
  import opened PipelineParts
  import opened PipelineDone
  import opened PipelineRuns

  /** Sends, dispatchers and workers: the steps that carry a task on, none of which brings a new one. */
  predicate Carrying(step: Step) {
    SendStep(step) || PoolStep(step) || RunStep(step)
  }

  function CallWeights(l: Limits): Call -> nat {
    (call: Call) => if call.Sending? then SenderWeight(l) else 0
  }

  /** Work left: in the pool, and in the Reconcile calls that have come to their send. */
  function Left(c: Config, s: State): nat {
    Sum(CallWeights(c.limits), s.calls) + Work(c.limits, s.pool)
  }

  lemma SendingStep(c: Config, s: State, step: Step)
    requires Enabled(c, s, step) && (step.SendTask? || step.HandTask?)
    ensures Left(c, Next(c, s, step)) < Left(c, s)
  {
    SumUpdate(CallWeights(c.limits), s.calls, step.call, Free);
    if step.SendTask? {
      SendWork(c.limits, s.pool);
    } else {
      HandoffWork(c.limits, s.pool, step.dispatcher);
    }
    hide Work;
  }

  lemma DispatcherStep(c: Config, s: State, step: Step)
    requires Enabled(c, s, step) && (step.ReceiveTask? || step.ExitDispatcher? || step.AcquireSlot?)
    ensures Left(c, Next(c, s, step)) < Left(c, s)
  {
    match step {
      case ReceiveTask(d) => ReceiveWork(c.limits, s.pool, d);
      case ExitDispatcher(d) => ExitWork(c.limits, s.pool, d);
      case AcquireSlot(d) => AcquireWork(c.limits, s.pool, d);
    }
    hide Work;
  }

  lemma WorkerLightens(c: Config, s: State, step: Step)
    requires WorkersOk(c, s) && WorkerStep(c, s, step)
    ensures Left(c, Next(c, s, step)) < Left(c, s)
  {
    var t := Next(c, s, step);
    WorkerMoves(c, s, step);
    LighterStage(c, s, step);
    var after := t.pool.workers[step.worker];
    AdvanceWork(c.limits, s.pool, step.worker, after.stage, after.turns);
    WorkIgnoresSem(c.limits, t.pool, Advance(s.pool, step.worker, after.stage, after.turns));
    hide Work, Next, StageWeight;
  }

  lemma WorkIgnoresSem(l: Limits, p: Pool, q: Pool)
    requires p.queue == q.queue && p.dispatchers == q.dispatchers && p.workers == q.workers
    ensures Work(l, p) == Work(l, q)
  {
  }

  lemma LighterStage(c: Config, s: State, step: Step)
    requires WorkersOk(c, s) && WorkerStep(c, s, step)
    ensures step.worker < |s.pool.workers| && step.worker < |Next(c, s, step).pool.workers|
    ensures StageWeight(c.limits, Next(c, s, step).pool.workers[step.worker])
          < StageWeight(c.limits, s.pool.workers[step.worker])
  {
    if step.Poll? {
      LighterPoll(c, s, step.worker, step.turn);
      hide Next, WorkersOk;
    } else {
      LighterOther(c, s, step);
      hide Next, WorkersOk;
    }
  }

  lemma LighterOther(c: Config, s: State, step: Step)
    requires WorkerStep(c, s, step) && !step.Poll?
    ensures step.worker < |s.pool.workers| && step.worker < |Next(c, s, step).pool.workers|
    ensures StageWeight(c.limits, Next(c, s, step).pool.workers[step.worker])
          < StageWeight(c.limits, s.pool.workers[step.worker])
  {
    hide Lookup;
  }

  lemma LighterPoll(c: Config, s: State, w: nat, turn: Turn)
    requires WorkersOk(c, s) && WorkerStep(c, s, Poll(w, turn))
    ensures w < |s.pool.workers| && w < |Next(c, s, Poll(w, turn)).pool.workers|
    ensures StageWeight(c.limits, Next(c, s, Poll(w, turn)).pool.workers[w]) < StageWeight(c.limits, s.pool.workers[w])
  {
    hide FirstDecisive;
  }

  /** Every carrying step strictly lowers the work left. */
  lemma CarryingStep(c: Config, s: State, step: Step)
    requires WorkersOk(c, s) && Enabled(c, s, step) && Carrying(step)
    ensures Left(c, Next(c, s, step)) < Left(c, s)
  {
    if step.SendTask? || step.HandTask? {
      SendingStep(c, s, step);
    } else if step.ReceiveTask? || step.ExitDispatcher? || step.AcquireSlot? {
      DispatcherStep(c, s, step);
    } else {
      WorkerLightens(c, s, step);
    }
    hide Next, Left, WorkersOk;
  }

  /** Only a call that passes the StatefulSet check brings work in, one send's worth. */
  lemma OtherStep(c: Config, s: State, step: Step)
    requires Enabled(c, s, step) && !Carrying(step)
    ensures Left(c, Next(c, s, step)) <= Left(c, s) + if step.CheckNode? then SenderWeight(c.limits) else 0
  {
    var t := Next(c, s, step);
    CallsMove(c, s, step);
    PoolStays(c, s, step);
    if CallStep(step) {
      SeenMoves(c, s, step);
      SumUpdate(CallWeights(c.limits), s.calls, step.call, t.calls[step.call]);
    }
    hide Next, Work, EnsureNode;
  }

  lemma PoolStays(c: Config, s: State, step: Step)
    requires Enabled(c, s, step) && !Carrying(step)
    ensures Next(c, s, step).pool == s.pool
  {
    if OutsideStep(step) {
      OutsideParts(c, s, step);
    } else {
      CallEffects(c, s, step);
    }
    hide Next, Enabled;
  }

  function CountCarrying(steps: seq<Step>): nat {
    Sum((step: Step) => if Carrying(step) then 1 else 0, steps)
  }

  function CountChecks(steps: seq<Step>): nat {
    Sum((step: Step) => if step.CheckNode? then 1 else 0, steps)
  }

  /**
   * However the steps interleave, a run takes no more carrying steps than the work it began with
   * and the work its StatefulSet checks let in.
   */
  lemma {:induction false} CarryingIsBounded(c: Config, s: State, steps: seq<Step>)
    requires Safe(c, s) && Run(c, s, steps).Some?
    ensures CountCarrying(steps) + Left(c, Run(c, s, steps).value)
         <= Left(c, s) + CountChecks(steps) * SenderWeight(c.limits)
  {
    hide Enabled, Next, Left, Safe;
    if steps == [] {
    } else {
      var front, last := steps[..|steps| - 1], steps[|steps| - 1];
      CarryingIsBounded(c, s, front);
      SafeRun(c, s, front);
      var t := Run(c, s, front).value;
      assert WorkersOk(c, t) by {
        SafeHasWorkers(c, t);
      }
      if Carrying(last) {
        CarryingStep(c, t, last);
      } else {
        OtherStep(c, t, last);
      }
      OneMoreCheck(CountChecks(front), SenderWeight(c.limits));
    }
  }

  lemma SafeHasWorkers(c: Config, s: State)
    requires Safe(c, s)
    ensures WorkersOk(c, s)
  {
  }

  lemma OneMoreCheck(n: nat, weight: nat)
    ensures (n + 1) * weight == n * weight + weight
  {
  }

  // ---------------------------------------------------------------- no deadlock

  /** The first dispatcher's context is never cancelled, so it never exits. */
  predicate FirstStays(s: State) {
    && s.pool.dispatchers != []
    && !s.pool.dispatchers[0].Exited?
    && !s.pool.dispatchers[0].bound
  }

  lemma FirstStaysStep(c: Config, s: State, step: Step)
    requires FirstStays(s) && Enabled(c, s, step)
    ensures FirstStays(Next(c, s, step))
  {
    if PoolStep(step) || SendStep(step) {
      hide EnsureNode;
    } else if RunStep(step) {
      WorkerMoves(c, s, step);
      hide Next;
    } else {
      PoolStays(c, s, step);
      hide Next;
    }
  }

  predicate SomeSending(s: State) {
    exists i | 0 <= i < |s.calls| :: s.calls[i].Sending?
  }

  /** Some task can move on: a carrying step other than the exit of a dispatcher is enabled. */
  ghost predicate CanCarry(c: Config, s: State) {
    exists step :: Moving(step) && Enabled(c, s, step)
  }

  predicate Moving(step: Step) {
    Carrying(step) && !step.ExitDispatcher?
  }

  /** A worker that has not freed its slot can always go on. */
  lemma WorkerCanMove(c: Config, s: State, w: nat)
    requires Safe(c, s) && w < |s.pool.workers| && !s.pool.workers[w].stage.Released?
    ensures CanCarry(c, s)
  {
    SafeHasWorkers(c, s);
    var worker := s.pool.workers[w];
    var step := match worker.stage
      case Querying => QueryRow(w, true)
      case Restoring(_) => StartRestore(w, true, true)
      case PollingRow(_) => Poll(w, Expired(true))
      case Reporting(_) => Report(w, true)
      case _ => FreeSlot(w);
    if worker.stage.Reported? {
      InvRelease(c.limits, s.pool, w);
    }
    assert Moving(step) && Enabled(c, s, step);
  }

  /**
   * While a send is blocked, or a task is queued, held or running, some carrying step is enabled,
   * for any queue size, even after every other dispatcher has exited; the semaphore must have a slot.
   */
  lemma NeverStuck(c: Config, s: State)
    requires Safe(c, s) && FirstStays(s) && c.limits.concurrency >= 1
    requires SomeSending(s) || Occupied(s.pool)
    ensures CanCarry(c, s)
  {
    if w :| 0 <= w < |s.pool.workers| && !s.pool.workers[w].stage.Released? {
      WorkerCanMove(c, s, w);
    } else {
      NobodyRunning(c.limits, s.pool);
      FreeSlotsCanCarry(c, s);
    }
  }

  lemma {:induction false} FirstStaysRun(c: Config, s: State, steps: seq<Step>)
    requires FirstStays(s) && Run(c, s, steps).Some?
    ensures FirstStays(Run(c, s, steps).value)
  {
    hide FirstStays, Enabled, Next;
    if steps == [] {
    } else {
      FirstStaysRun(c, s, steps[..|steps| - 1]);
      FirstStaysStep(c, Run(c, s, steps[..|steps| - 1]).value, steps[|steps| - 1]);
    }
  }

  /** So in every run that starts with one dispatcher whose context lives on, nothing deadlocks. */
  lemma NoDeadlock(c: Config, reconcilers: nat, bound: seq<bool>, nodeSets: seq<NodeSet>, steps: seq<Step>)
    requires c.limits.concurrency >= 1 && bound != [] && !bound[0]
    requires Run(c, Init(reconcilers, bound, nodeSets), steps).Some?
    ensures var s := Run(c, Init(reconcilers, bound, nodeSets), steps).value;
            SomeSending(s) || Occupied(s.pool) ==> CanCarry(c, s)
  {
    var s := Run(c, Init(reconcilers, bound, nodeSets), steps).value;
    FirstStaysRun(c, Init(reconcilers, bound, nodeSets), steps);
    ReachableIsSafe(c, s);
    hide Safe, FirstStays, CanCarry, Run;
    if SomeSending(s) || Occupied(s.pool) {
      NeverStuck(c, s);
    }
  }

  lemma FreeSlotsCanCarry(c: Config, s: State)
    requires FirstStays(s) && s.pool.sem < c.limits.concurrency
    requires SomeSending(s) || s.pool.queue != [] || exists d | 0 <= d < |s.pool.dispatchers| ::
             s.pool.dispatchers[d].Holding?
    ensures CanCarry(c, s)
  {
    if d :| 0 <= d < |s.pool.dispatchers| && s.pool.dispatchers[d].Holding? {
      assert Moving(AcquireSlot(d)) && Enabled(c, s, AcquireSlot(d));
    } else if s.pool.queue != [] {
      assert Moving(ReceiveTask(0)) && Enabled(c, s, ReceiveTask(0));
    } else {
      var i :| 0 <= i < |s.calls| && s.calls[i].Sending?;
      assert Moving(HandTask(i, 0)) && Enabled(c, s, HandTask(i, 0));
    }
  }

  /** No send is blocked, and no task is queued, held or running. */
  predicate AllDone(s: State) {
    !SomeSending(s) && !Occupied(s.pool)
  }

  predicate AllMoving(steps: seq<Step>) {
    forall n | 0 <= n < |steps| :: Moving(steps[n])
  }

  lemma {:induction false} MovingCounts(steps: seq<Step>)
    requires AllMoving(steps)
    ensures CountCarrying(steps) == |steps| && CountChecks(steps) == 0
  {
    if steps == [] {
    } else {
      assert AllMoving(steps[..|steps| - 1]);
      MovingCounts(steps[..|steps| - 1]);
    }
  }

  /**
   * From every reachable state with a slot and a first dispatcher that stays, a sequence of moving steps
   * is no longer than the work left, and one that cannot be extended leaves nothing sending, queued,
   * held or running.
   */
  lemma MovingRunsEnd(c: Config, s: State, steps: seq<Step>)
    requires Reachable(c, s) && FirstStays(s) && c.limits.concurrency >= 1
    requires Run(c, s, steps).Some? && AllMoving(steps)
    ensures |steps| <= Left(c, s)
    ensures !CanCarry(c, Run(c, s, steps).value) ==> AllDone(Run(c, s, steps).value)
  {
    hide Safe, FirstStays, CanCarry, Run, CountCarrying, CountChecks, Left, AllMoving;
    ReachableIsSafe(c, s);
    CarryingIsBounded(c, s, steps);
    MovingCounts(steps);
    SafeRun(c, s, steps);
    FirstStaysRun(c, s, steps);
    var t := Run(c, s, steps).value;
    if !AllDone(t) {
      NeverStuck(c, t);
    }
  }

  lemma OneMoreMove(c: Config, s: State) returns (step: Step)
    requires Safe(c, s) && FirstStays(s) && c.limits.concurrency >= 1 && !AllDone(s)
    ensures Moving(step) && Enabled(c, s, step)
    ensures var t := Next(c, s, step); Safe(c, t) && FirstStays(t) && Left(c, t) < Left(c, s)
  {
    NeverStuck(c, s);
    step :| Moving(step) && Enabled(c, s, step);
    SafeHasWorkers(c, s);
    CarryingStep(c, s, step);
    SafeStep(c, s, step);
    FirstStaysStep(c, s, step);
    hide Safe, FirstStays, Left, Next, Enabled;
  }

  /** And there is such a sequence: everything that was let in can be finished. */
  lemma {:induction false} EverythingCanBeFinished(c: Config, s: State) returns (steps: seq<Step>)
    requires Safe(c, s) && FirstStays(s) && c.limits.concurrency >= 1
    ensures Run(c, s, steps).Some? && AllMoving(steps) && AllDone(Run(c, s, steps).value)
    decreases Left(c, s)
  {
    hide Safe, FirstStays, Left, Next, Enabled, AllDone, Moving;
    if AllDone(s) {
      steps := [];
    } else {
      var step := OneMoreMove(c, s);
      var rest := EverythingCanBeFinished(c, Next(c, s, step));
      RunFrom(c, s, step, rest);
      steps := [step] + rest;
    }
  }

  lemma {:induction false} RunFrom(c: Config, s: State, step: Step, rest: seq<Step>)
    requires Enabled(c, s, step) && Run(c, Next(c, s, step), rest).Some?
    ensures Run(c, s, [step] + rest) == Run(c, Next(c, s, step), rest)
  {
    hide Enabled, Next;
    if rest == [] {
      assert [step] + rest == [step] && [step][..0] == [];
    } else {
      assert ([step] + rest)[..|rest|] == [step] + rest[..|rest| - 1];
      RunFrom(c, s, step, rest[..|rest| - 1]);
    }
  }

  /** Without a slot there is never a worker: a task that a dispatcher has received stays with it. */
  lemma {:induction false} NoSlotNoWorker(c: Config, s: State, steps: seq<Step>)
    requires c.limits.concurrency == 0 && s.pool.workers == [] && Run(c, s, steps).Some?
    ensures Run(c, s, steps).value.pool.workers == []
    ensures forall d | 0 <= d < |s.pool.dispatchers| && s.pool.dispatchers[d].Holding? ::
              && d < |Run(c, s, steps).value.pool.dispatchers|
              && Run(c, s, steps).value.pool.dispatchers[d] == s.pool.dispatchers[d]
  {
    hide Enabled, Next;
    if steps == [] {
    } else {
      var front := steps[..|steps| - 1];
      NoSlotNoWorker(c, s, front);
      NoSlotStep(c, Run(c, s, front).value, steps[|steps| - 1]);
    }
  }

  lemma NoSlotStep(c: Config, s: State, step: Step)
    requires c.limits.concurrency == 0 && s.pool.workers == [] && Enabled(c, s, step)
    ensures Next(c, s, step).pool.workers == []
    ensures forall d | 0 <= d < |s.pool.dispatchers| && s.pool.dispatchers[d].Holding? ::
              && d < |Next(c, s, step).pool.dispatchers|
              && Next(c, s, step).pool.dispatchers[d] == s.pool.dispatchers[d]
  {
    if PoolStep(step) || SendStep(step) || RunStep(step) {
      hide EnsureNode, Lookup;
    } else {
      PoolStays(c, s, step);
      hide Next;
    }
  }
}
