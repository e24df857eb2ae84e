/**
 * The channels of the restore pipeline over all runs (internal/controller/controller/
 * restoretask_controller.go): tasks are received in the order in which they were sent, and sends,
 * receives and starts are blocked exactly when they should be.
 */
module PipelineLaws {
  import opened Wrappers
  import opened NodeSets
  import opened TaskPool
  import opened Pipeline
  import opened PipelineParts
  import opened PipelineSafety
  import opened PipelineRuns

  /** The queue is the last sends, oldest first. */
  predicate InOrder(p: Pool) {
    && |p.queue| <= p.sent
    && forall i | 0 <= i < |p.queue| :: p.queue[i] == p.sent - |p.queue| + i
  }

  lemma InOrderStep(c: Config, s: State, step: Step)
    requires InOrder(s.pool) && Enabled(c, s, step)
    ensures InOrder(Next(c, s, step).pool)
  {
    if OutsideStep(step) {
      OutsideParts(c, s, step);
      hide Next;
    } else if SendStep(step) {
      SendsInOrder(c, s, step);
      hide Next;
    } else if CallStep(step) {
      CallEffects(c, s, step);
      hide Next;
    } else if PoolStep(step) {
      DispatchInOrder(c, s, step);
      hide Next;
    } else {
      WorkerMoves(c, s, step);
      hide Next;
    }
  }

  lemma SendsInOrder(c: Config, s: State, step: Step)
    requires InOrder(s.pool) && Enabled(c, s, step) && SendStep(step)
    ensures InOrder(Next(c, s, step).pool)
  {
    hide EnsureNode, InCall;
  }

  lemma DispatchInOrder(c: Config, s: State, step: Step)
    requires InOrder(s.pool) && Enabled(c, s, step) && PoolStep(step)
    ensures InOrder(Next(c, s, step).pool)
    ensures step.ReceiveTask? ==>
              Next(c, s, step).pool.dispatchers[step.dispatcher].Holding?
              && Next(c, s, step).pool.dispatchers[step.dispatcher].task == s.pool.sent - |s.pool.queue|
  {
  }

  lemma {:induction false} InOrderRun(c: Config, s: State, steps: seq<Step>)
    requires InOrder(s.pool) && Run(c, s, steps).Some?
    ensures InOrder(Run(c, s, steps).value.pool)
  {
    hide InOrder, Enabled, Next;
    if steps == [] {
    } else {
      var front := steps[..|steps| - 1];
      InOrderRun(c, s, front);
      InOrderStep(c, Run(c, s, front).value, steps[|steps| - 1]);
    }
  }

  lemma ReachableIsInOrder(c: Config, s: State)
    requires Reachable(c, s)
    ensures InOrder(s.pool)
  {
    hide Run, Init;
    var reconcilers: nat, bound: seq<bool>, nodeSets: seq<NodeSet>, steps: seq<Step> :|
      Run(c, Init(reconcilers, bound, nodeSets), steps) == Some(s);
    StartInOrder(reconcilers, bound, nodeSets);
    hide InOrder;
    InOrderRun(c, Init(reconcilers, bound, nodeSets), steps);
  }

  lemma StartInOrder(reconcilers: nat, bound: seq<bool>, nodeSets: seq<NodeSet>)
    ensures InOrder(Init(reconcilers, bound, nodeSets).pool)
  {
  }

  /**
   * First in, first out: in every reachable state the tasks in the queue are the last ones sent, in the
   * order of their sends; every task that is held, running or finished was sent before all of them; and
   * whoever receives next gets the oldest of them.
   */
  lemma TasksAreReceivedInOrder(c: Config, s: State, d: nat, w: nat)
    requires Reachable(c, s)
    ensures var oldest := |s.sends| - |s.pool.queue|;
            && oldest >= 0
            && (forall i | 0 <= i < |s.pool.queue| :: s.pool.queue[i] == oldest + i)
            && (d < |s.pool.dispatchers| && s.pool.dispatchers[d].Holding? ==> s.pool.dispatchers[d].task < oldest)
            && (w < |s.pool.workers| ==> s.pool.workers[w].task < oldest)
            && (Enabled(c, s, ReceiveTask(d)) ==>
                  && Next(c, s, ReceiveTask(d)).pool.dispatchers[d].Holding?
                  && Next(c, s, ReceiveTask(d)).pool.dispatchers[d].task == oldest)
  {
    ReachableIsInOrder(c, s);
    ReachableIsSafe(c, s);
    assert PoolSafe(c, s);
    hide Safe, Reachable, Inv, Next, Enabled;
    if d < |s.pool.dispatchers| && s.pool.dispatchers[d].Holding? {
      HeldIsOlder(c, s, d);
    }
    if w < |s.pool.workers| {
      StartedIsOlder(c, s, w);
    }
    if Enabled(c, s, ReceiveTask(d)) {
      DispatchInOrder(c, s, ReceiveTask(d));
    }
  }

  lemma HeldIsOlder(c: Config, s: State, d: nat)
    requires PoolSafe(c, s) && InOrder(s.pool) && d < |s.pool.dispatchers| && s.pool.dispatchers[d].Holding?
    ensures s.pool.dispatchers[d].task < |s.sends| - |s.pool.queue|
  {
    var t := s.pool.dispatchers[d].task;
    PlacesAre(s.pool, t);
    assert t in HeldTask(s.pool.dispatchers[d]);
    EachTaskInOnePlace(c.limits, s.pool, t);
    hide Inv;
    QueuedFrom(s.pool, t);
  }

  lemma StartedIsOlder(c: Config, s: State, w: nat)
    requires PoolSafe(c, s) && InOrder(s.pool) && w < |s.pool.workers|
    ensures s.pool.workers[w].task < |s.sends| - |s.pool.queue|
  {
    var t := s.pool.workers[w].task;
    StartedOnce(s.pool, w);
    EachTaskInOnePlace(c.limits, s.pool, t);
    hide Inv, Busy, Finished;
    QueuedFrom(s.pool, t);
  }

  lemma StartedOnce(p: Pool, w: nat)
    requires w < |p.workers|
    ensures Busy(p)[p.workers[w].task] + Finished(p)[p.workers[w].task] >= 1
  {
    WorkerCounts(p.workers, w);
  }

  lemma QueuedFrom(p: Pool, t: nat)
    requires InOrder(p)
    ensures p.sent - |p.queue| <= t < p.sent ==> t in p.queue
  {
    if p.sent - |p.queue| <= t < p.sent {
      assert p.queue[t - (p.sent - |p.queue|)] == t;
    }
  }

  /** A send goes on exactly when the buffer has room, or is empty and a dispatcher is waiting. */
  lemma SendBlocksExactly(c: Config, s: State, i: nat)
    requires i < |s.calls| && s.calls[i].Sending?
    ensures Enabled(c, s, SendTask(i)) || (exists d :: Enabled(c, s, HandTask(i, d)))
            <==> || |s.pool.queue| < c.limits.maxTasks
                 || (s.pool.queue == [] && exists d | 0 <= d < |s.pool.dispatchers| :: s.pool.dispatchers[d].Idle?)
  {
    if d :| 0 <= d < |s.pool.dispatchers| && s.pool.dispatchers[d].Idle? {
      assert s.pool.queue == [] ==> Enabled(c, s, HandTask(i, d));
    }
  }

  /** In every reachable state a waiting dispatcher receives exactly when something is queued, and a held
      task is started exactly when fewer workers than configured have not freed their slot. */
  lemma DispatcherBlocksExactly(c: Config, s: State, d: nat)
    requires Reachable(c, s) && d < |s.pool.dispatchers|
    ensures Enabled(c, s, ReceiveTask(d)) <==> s.pool.dispatchers[d].Idle? && s.pool.queue != []
    ensures Enabled(c, s, AcquireSlot(d)) <==>
            s.pool.dispatchers[d].Holding? && |Busy(s.pool)| < c.limits.concurrency
    ensures Enabled(c, s, ExitDispatcher(d)) <==> s.pool.dispatchers[d] == Idle(true)
  {
    hide Reachable, Busy, EnabledCall, EnabledOutside, EnabledWorker;
    PoolIsSafe(c, s, 0);
  }

  /** No dispatcher changes the context it watches, and one is gone only once its own has been cancelled. */
  lemma DispatchersStay(c: Config, s: State, step: Step, d: nat)
    requires Enabled(c, s, step) && d < |s.pool.dispatchers|
    ensures |Next(c, s, step).pool.dispatchers| == |s.pool.dispatchers|
    ensures var before, after := s.pool.dispatchers[d], Next(c, s, step).pool.dispatchers[d];
            if before.Exited? || (step == ExitDispatcher(d) && before == Idle(true)) then after.Exited?
            else !after.Exited? && after.bound == before.bound
  {
    if OutsideStep(step) {
      OutsideParts(c, s, step);
      hide Next;
    } else if SendStep(step) {
      SendKeepsDispatchers(c, s, step, d);
      hide Next;
    } else if CallStep(step) {
      CallEffects(c, s, step);
      hide Next;
    } else if PoolStep(step) {
      hide EnabledCall, EnabledOutside, EnabledWorker;
    } else {
      WorkerMoves(c, s, step);
      hide Next;
    }
  }

  lemma SendKeepsDispatchers(c: Config, s: State, step: Step, d: nat)
    requires Enabled(c, s, step) && SendStep(step) && d < |s.pool.dispatchers|
    ensures |Next(c, s, step).pool.dispatchers| == |s.pool.dispatchers|
    ensures var before, after := s.pool.dispatchers[d], Next(c, s, step).pool.dispatchers[d];
            if before.Exited? then after.Exited? else !after.Exited? && after.bound == before.bound
  {
    hide EnsureNode, InCall;
  }

  // ---------------------------------------------------------------- how far a call gets

  /** The request a call makes in this step succeeds and lets it go on. */
  predicate GoesOn(c: Config, s: State, step: Step)
    requires CallStep(step) && !step.Take? && step.call < |s.calls| && Enabled(c, s, step)
  {
    var call := s.calls[step.call];
    match step
    case Load(_, ok) => ok && call.key in s.crs
    case MarkStart(_, ok) => call.cr.started || (ok && call.key in s.crs)
    case ReadCluster(_, ok) => ok
    case PatchCluster(_, ok) =>
      var sized := EnsureNode(call.snapshot, call.cr.node, call.cr.size, c.nodeCount, c.code.resize);
      sized.Ok? && (sized.value.0 == call.snapshot || ok)
    case CheckNode(_, sts) => sts == Found(c.code.ownerFixed, true)
    case _ => false
  }

  /** A call goes on exactly when its request succeeds; otherwise it ends, and its key comes back unless
      its resource was found to be gone or its task was sent. */
  lemma CallGoesOnExactly(c: Config, s: State, step: Step)
    requires CallStep(step) && !step.Take? && Enabled(c, s, step)
    ensures step.call < |s.calls| == |Next(c, s, step).calls|
    ensures !Next(c, s, step).calls[step.call].Free? <==> GoesOn(c, s, step)
    ensures Next(c, s, step).pending
         == if GoesOn(c, s, step) || (step.Load? && step.ok) || SendStep(step) then s.pending
            else s.pending + {s.calls[step.call].key}
  {
    hide EnsureNode, InCall;
  }

  /** The node sets of a patch are those of its own plan, whole, exactly when the plan changes something
      and the patch is accepted; otherwise they stay as they are by then. */
  lemma PatchIsWhole(c: Config, s: State, i: nat, ok: bool)
    requires Enabled(c, s, PatchCluster(i, ok))
    ensures var call := s.calls[i];
            var sized := EnsureNode(call.snapshot, call.cr.node, call.cr.size, c.nodeCount, c.code.resize);
            Next(c, s, PatchCluster(i, ok)).nodeSets
            == if sized.Ok? && sized.value.0 != call.snapshot && ok then sized.value.0 else s.nodeSets
  {
    hide EnsureNode, InCall;
  }
}
