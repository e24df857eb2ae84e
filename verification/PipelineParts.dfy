/** What each kind of step of the restore pipeline changes, and what it leaves alone. */
module PipelineParts {
  import opened Wrappers
  import opened NodeSets
  import opened Polling
  import opened TaskPool
  import opened Pipeline

  predicate OutsideStep(step: Step) {
    step.CreateRow? || step.CreateCR? || step.DeleteCR? || step.EditNodes? || step.Notice?
  }

  predicate CallStep(step: Step) {
    step.Take? || step.Load? || step.MarkStart? || step.ReadCluster? || step.PatchCluster?
    || step.CheckNode? || step.SendTask? || step.HandTask?
  }

  predicate PoolStep(step: Step) {
    step.ReceiveTask? || step.ExitDispatcher? || step.AcquireSlot?
  }

  predicate RunStep(step: Step) {
    step.QueryRow? || step.StartRestore? || step.Poll? || step.Report? || step.FreeSlot?
  }

  lemma OutsideParts(c: Config, s: State, step: Step)
    requires Enabled(c, s, step) && OutsideStep(step)
    ensures var t := Next(c, s, step);
            && t.calls == s.calls && t.sends == s.sends && t.pool == s.pool
            && t.rows == (if step.CreateRow? then s.rows + [TaskRow(step.taskId, step.index, step.status)] else s.rows)
            && t.nodeSets == (if step.EditNodes? then step.sets else s.nodeSets)
            && t.used == (if step.CreateCR? then s.used + {step.key} else s.used)
            && t.noticed == (if step.Notice? then s.noticed + {step.key} else s.noticed)
            && t.pending == (if step.Notice? then s.pending + {step.key} else s.pending)
            && (step.CreateCR? ==> step.row < |s.rows| && step.key !in s.used
                                   && t.crs == s.crs[step.key := CR(s.rows[step.row].taskId, s.rows[step.row].index,
                                                                    step.node, step.size, false, None)])
            && (step.DeleteCR? ==> t.crs == s.crs - {step.key})
            && (!step.CreateCR? && !step.DeleteCR? ==> t.crs == s.crs)
  {
  }

  /** What a call carries, once it has loaded its resource. */
  predicate Carries(call: Call) {
    !call.Free? && !call.Taken?
  }

  /** A step of a call changes that call, its key in the work queue, and what MarkStart, PatchCluster
      and the sends are for. */
  predicate CallMoved(s: State, t: State, step: Step)
    requires CallStep(step)
  {
    var i := step.call;
    && i < |s.calls| && |t.calls| == |s.calls| && t.calls == s.calls[i := t.calls[i]]
    && t.rows == s.rows && t.used == s.used && t.noticed == s.noticed
    && (if step.Take? then s.calls[i] == Free && t.calls[i] == Taken(step.key) && step.key in s.pending
        else s.calls[i] != Free && (t.calls[i] != Free ==> t.calls[i].key == s.calls[i].key))
    && (Carries(t.calls[i]) ==> if step.Load? then t.calls[i].key in s.crs && t.calls[i].cr == s.crs[t.calls[i].key]
                                else Carries(s.calls[i]) && t.calls[i].cr == s.calls[i].cr)
  }

  lemma CallMoves(c: Config, s: State, step: Step)
    requires Enabled(c, s, step) && CallStep(step)
    ensures CallMoved(s, Next(c, s, step), step)
  {
    if step.PatchCluster? || step.CheckNode? || step.MarkStart? {
      CallMovesLater(c, s, step);
      hide Next, Enabled;
    } else {
      hide EnsureNode, InCall;
    }
  }

  lemma CallMovesLater(c: Config, s: State, step: Step)
    requires Enabled(c, s, step) && (step.PatchCluster? || step.CheckNode? || step.MarkStart?)
    ensures CallMoved(s, Next(c, s, step), step)
  {
    hide EnsureNode, InCall;
  }

  predicate SendStep(step: Step) {
    step.SendTask? || step.HandTask?
  }

  /** Where the key of a call goes when the call ends. */
  lemma CallKeys(c: Config, s: State, step: Step)
    requires Enabled(c, s, step) && CallStep(step)
    ensures var t, i := Next(c, s, step), step.call;
            && i < |s.calls| == |t.calls|
            && (step.Take? ==> t.pending == s.pending - {step.key})
            && (!step.Take? ==> s.calls[i] != Free && s.pending <= t.pending <= s.pending + {s.calls[i].key})
            && (!step.Take? && t.calls[i].Free? ==>
                  || s.calls[i].key in t.pending
                  || (step.Load? && step.ok && s.calls[i].key !in s.crs)
                  || SendStep(step))
  {
    if step.PatchCluster? {
      hide EnsureNode;
    } else {
      hide EnsureNode, InCall;
    }
  }

  lemma CallEffects(c: Config, s: State, step: Step)
    requires Enabled(c, s, step) && CallStep(step)
    ensures var t, i := Next(c, s, step), step.call;
            && i < |s.calls|
            && (SendStep(step) ==>
                  && s.calls[i].Sending?
                  && t.sends == s.sends + [SendRecord(s.calls[i].key, s.calls[i].cr, s.calls[i].seen)])
            && (!SendStep(step) ==> t.sends == s.sends && t.pool == s.pool)
            && t.pool.workers == s.pool.workers
            && (!step.MarkStart? ==> t.crs == s.crs)
            && (!step.PatchCluster? ==> t.nodeSets == s.nodeSets)
  {
    if step.PatchCluster? || step.CheckNode? || step.MarkStart? {
      EffectsLater(c, s, step);
      hide Next;
    } else {
      hide EnsureNode, InCall;
    }
  }

  lemma EffectsLater(c: Config, s: State, step: Step)
    requires Enabled(c, s, step) && (step.PatchCluster? || step.CheckNode? || step.MarkStart?)
    ensures var t := Next(c, s, step);
            && t.sends == s.sends && t.pool == s.pool
            && (!step.MarkStart? ==> t.crs == s.crs) && (!step.PatchCluster? ==> t.nodeSets == s.nodeSets)
  {
    hide EnsureNode, InCall;
  }

  /** MarkStart keeps what a resource asks for. */
  lemma MarkKeeps(c: Config, s: State, step: Step)
    requires Enabled(c, s, step) && step.MarkStart?
    ensures var t := Next(c, s, step);
            && t.crs.Keys == s.crs.Keys
            && forall k | k in s.crs :: t.crs[k] == s.crs[k].(started := t.crs[k].started)
  {
    hide InCall;
  }

  lemma PoolParts(c: Config, s: State, step: Step)
    requires Enabled(c, s, step) && PoolStep(step)
    ensures Next(c, s, step) == s.(pool := Next(c, s, step).pool)
    ensures var p, q, d := s.pool, Next(c, s, step).pool, step.dispatcher;
            && d < |p.dispatchers|
            && (step.AcquireSlot? ==>
                  && p.dispatchers[d].Holding?
                  && q.workers == p.workers + [Worker(p.dispatchers[d].task, Querying, [])])
            && (!step.AcquireSlot? ==> q.workers == p.workers)
  {
  }

  /** A step of a worker changes that worker, the table and the resources, and frees slots. */
  predicate WorkerMoved(s: State, t: State, step: Step)
    requires RunStep(step)
  {
    var w := step.worker;
    && t == s.(rows := t.rows, crs := t.crs, pool := t.pool)
    && w < |s.pool.workers| && |t.pool.workers| == |s.pool.workers|
    && t.pool.workers == s.pool.workers[w := t.pool.workers[w]]
    && t.pool.workers[w].task == s.pool.workers[w].task
    && t.pool == s.pool.(workers := t.pool.workers, sem := t.pool.sem)
    && |t.rows| == |s.rows|
    && (!step.FreeSlot? ==>
          && !s.pool.workers[w].stage.Released? && !t.pool.workers[w].stage.Released?
          && t.pool.sem == s.pool.sem)
    && (!step.Report? ==> t.crs == s.crs)
    && (!step.StartRestore? && !step.Poll? ==> t.rows == s.rows)
  }

  lemma WorkerMoves(c: Config, s: State, step: Step)
    requires Enabled(c, s, step) && RunStep(step)
    ensures WorkerMoved(s, Next(c, s, step), step)
  {
    if step.QueryRow? || step.StartRestore? {
      hide Lookup;
    } else if step.Poll? {
      PollMoves(c, s, step);
      hide Next;
    } else {
      hide Lookup;
    }
  }

  lemma PollMoves(c: Config, s: State, step: Step)
    requires Enabled(c, s, step) && step.Poll?
    ensures WorkerMoved(s, Next(c, s, step), step)
  {
  }

  /** The row a worker writes to is its own, and keeps its task. */
  lemma RowsMove(c: Config, s: State, step: Step)
    requires Enabled(c, s, step) && RunStep(step)
    ensures var t := Next(c, s, step);
            && |t.rows| == |s.rows|
            && (forall r | 0 <= r < |s.rows| :: t.rows[r] == s.rows[r].(status := t.rows[r].status))
            && (forall r | 0 <= r < |s.rows| && t.rows[r] != s.rows[r] ::
                  && step.worker < |s.pool.workers|
                  && var stage := s.pool.workers[step.worker].stage;
                     (stage.Restoring? || stage.PollingRow?) && stage.row == r)
  {
    if step.Poll? {
      hide Lookup, AfterQuery, AfterRestore, AfterReport, Release;
    } else if step.StartRestore? {
      hide Lookup, AfterQuery, AfterPoll, AfterReport, Release;
    } else {
      hide Lookup, AfterRestore, AfterPoll;
      assert Next(c, s, step).rows == s.rows;
    }
    hide Next, Enabled;
  }

  /** Two copies of a resource that ask for the same. */
  predicate SameTask(a: CR, b: CR) {
    a.taskId == b.taskId && a.index == b.index && a.node == b.node && a.size == b.size
  }

  lemma ReportKeeps(c: Config, s: State, step: Step)
    requires Enabled(c, s, step) && step.Report?
    ensures var t := Next(c, s, step);
            && t.crs.Keys == s.crs.Keys
            && forall k | k in s.crs :: t.crs[k] == s.crs[k].(status := t.crs[k].status)
  {
  }

  /** Resources are new, or ask for what they asked for before. */
  lemma ResourcesMove(c: Config, s: State, step: Step)
    requires Enabled(c, s, step)
    ensures var t := Next(c, s, step);
            && (step.CreateCR? ==> step.row < |s.rows|)
            && forall k | k in t.crs ::
                 if step.CreateCR? && k == step.key
                 then SameTask(t.crs[k],
                   CR(s.rows[step.row].taskId, s.rows[step.row].index, step.node, step.size, false, None))
                 else k in s.crs && SameTask(t.crs[k], s.crs[k])
  {
    if OutsideStep(step) {
      OutsideParts(c, s, step);
    } else if step.MarkStart? {
      MarkKeeps(c, s, step);
    } else if CallStep(step) {
      CallEffects(c, s, step);
    } else if PoolStep(step) {
      PoolParts(c, s, step);
    } else if step.Report? {
      ReportKeeps(c, s, step);
    } else {
      WorkerMoves(c, s, step);
    }
    hide Next, Enabled;
  }

  /** Every call that carries a resource after a step carried it before, or has just loaded it. */
  lemma CopyMoves(c: Config, s: State, step: Step, i: nat)
    requires Enabled(c, s, step) && i < |Next(c, s, step).calls| && Carries(Next(c, s, step).calls[i])
    ensures var t := Next(c, s, step);
            && i < |s.calls|
            && (if step.Load? && step.call == i then t.calls[i].key in s.crs && t.calls[i].cr == s.crs[t.calls[i].key]
                else Carries(s.calls[i]) && t.calls[i].cr == s.calls[i].cr)
  {
    CallsMove(c, s, step);
    hide Next, Enabled;
  }

  lemma CallsMove(c: Config, s: State, step: Step)
    requires Enabled(c, s, step)
    ensures if CallStep(step) then CallMoved(s, Next(c, s, step), step) else Next(c, s, step).calls == s.calls
  {
    if OutsideStep(step) {
      OutsideParts(c, s, step);
    } else if CallStep(step) {
      CallMoves(c, s, step);
    } else if PoolStep(step) {
      PoolParts(c, s, step);
    } else {
      WorkerMoves(c, s, step);
    }
    hide Next, Enabled, CallMoved;
  }

  /** Tasks are sent by their calls, one at a time, and stay sent. */
  lemma SendsMove(c: Config, s: State, step: Step)
    requires Enabled(c, s, step)
    ensures var t := Next(c, s, step);
            if SendStep(step) then
              && step.call < |s.calls| && s.calls[step.call].Sending?
              && t.sends
                 == s.sends + [SendRecord(s.calls[step.call].key, s.calls[step.call].cr, s.calls[step.call].seen)]
            else t.sends == s.sends
  {
    if OutsideStep(step) {
      OutsideParts(c, s, step);
    } else if CallStep(step) {
      CallEffects(c, s, step);
    } else if PoolStep(step) {
      PoolParts(c, s, step);
    } else {
      WorkerMoves(c, s, step);
    }
    hide Next, Enabled;
  }

  /** Node sets change by edits and accepted patches only. */
  lemma SetsElsewhere(c: Config, s: State, step: Step)
    requires Enabled(c, s, step) && !step.EditNodes? && !step.PatchCluster?
    ensures Next(c, s, step).nodeSets == s.nodeSets
  {
    if OutsideStep(step) {
      OutsideParts(c, s, step);
    } else if CallStep(step) {
      CallEffects(c, s, step);
    } else if PoolStep(step) {
      PoolParts(c, s, step);
    } else {
      WorkerMoves(c, s, step);
    }
    hide Next, Enabled;
  }

  /** What a call has seen of its node it has from its plan. */
  lemma SeenMoves(c: Config, s: State, step: Step)
    requires Enabled(c, s, step) && CallStep(step)
    ensures var t, i := Next(c, s, step), step.call;
            && i < |s.calls| == |t.calls|
            && (t.calls[i].Sized? ==>
                  && s.calls[i].Planned? && step.PatchCluster?
                  && var Planned(_, cr, snapshot) := s.calls[i];
                     && EnsureNode(snapshot, cr.node, cr.size, c.nodeCount, c.code.resize).Ok?
                     && t.calls[i].seen == EnsureNode(snapshot, cr.node, cr.size, c.nodeCount, c.code.resize).value.1)
            && (t.calls[i].Sending? ==> step.CheckNode? && s.calls[i].Sized? && t.calls[i].seen == s.calls[i].seen)
            && (t.calls[i].Planned? ==> step.ReadCluster? && t.calls[i].snapshot == s.nodeSets)
  {
    hide EnsureNode, InCall;
  }
}
