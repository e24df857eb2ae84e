/** What holds in every run of the restore pipeline, from an empty start and over any steps. */
module PipelineRuns {
  import opened Wrappers
  import opened SizeText
  import opened Quantities
  import opened NodeSets
  import opened Polling
  import opened TaskPool
  import opened Pipeline
  import opened PipelineSafety
  import opened PipelineDone

  ghost predicate Safe(c: Config, s: State) {
    && PoolSafe(c, s)
    && RowsFirst(s)
    && NothingLost(s)
    && StorageSeen(s)
    && WorkersOk(c, s)
    && SuccessStored(s)
    && StatusTrue(c, s)
  }

  lemma SafeInit(c: Config, reconcilers: nat, bound: seq<bool>, nodeSets: seq<NodeSet>)
    ensures Safe(c, Init(reconcilers, bound, nodeSets))
  {
    InvStart(c.limits, bound);
  }

  lemma SafeStep(c: Config, s: State, step: Step)
    requires Safe(c, s) && Enabled(c, s, step)
    ensures Safe(c, Next(c, s, step))
  {
    PoolSafeStep(c, s, step);
    RowsFirstStep(c, s, step);
    assert s.crs.Keys <= s.used;
    NothingLostStep(c, s, step);
    StorageSeenStep(c, s, step);
    WorkersOkStep(c, s, step);
    SuccessStoredStep(c, s, step);
    StatusTrueStep(c, s, step);
    hide *;
  }

  lemma {:induction false} SafeRun(c: Config, s: State, steps: seq<Step>)
    requires Safe(c, s) && Run(c, s, steps).Some?
    ensures Safe(c, Run(c, s, steps).value)
  {
    hide Safe, Enabled, Next;
    if steps == [] {
    } else {
      var front := steps[..|steps| - 1];
      SafeRun(c, s, front);
      SafeStep(c, Run(c, s, front).value, steps[|steps| - 1]);
    }
  }

  /** A state some run reaches from the start. */
  ghost predicate Reachable(c: Config, s: State) {
    exists reconcilers: nat, bound: seq<bool>, nodeSets: seq<NodeSet>, steps: seq<Step> ::
      Run(c, Init(reconcilers, bound, nodeSets), steps) == Some(s)
  }

  lemma ReachableIsSafe(c: Config, s: State)
    requires Reachable(c, s)
    ensures Safe(c, s)
  {
    hide Safe, Run, Init;
    var reconcilers: nat, bound: seq<bool>, nodeSets: seq<NodeSet>, steps: seq<Step> :|
      Run(c, Init(reconcilers, bound, nodeSets), steps) == Some(s);
    SafeInit(c, reconcilers, bound, nodeSets);
    SafeRun(c, Init(reconcilers, bound, nodeSets), steps);
  }

  /**
   * Pool safety and conservation: running workers and queued tasks stay within their limits, the
   * semaphore counts the workers that have not freed their slot, no dispatcher holds two tasks, and
   * every task sent is in exactly one place.
   */
  lemma PoolIsSafe(c: Config, s: State, t: nat)
    requires Reachable(c, s)
    ensures |Busy(s.pool)| == s.pool.sem <= c.limits.concurrency
    ensures |s.pool.queue| <= c.limits.maxTasks
    ensures |Held(s.pool)| <= |s.pool.dispatchers|
    ensures multiset(s.pool.queue)[t] + Held(s.pool)[t] + Busy(s.pool)[t] + Finished(s.pool)[t]
         == if t < |s.sends| then 1 else 0
  {
    ReachableIsSafe(c, s);
    EachTaskInOnePlace(c.limits, s.pool, t);
    PlacesAre(s.pool, t);
    hide RowsFirst, NothingLost, StorageSeen, WorkersOk, SuccessStored, StatusTrue;
  }

  /** The task has exactly one row, and nobody else having worked on it, that row says SUCCESS. */
  ghost predicate OneSuccessfulRow(s: State, w: nat)
    requires TasksSent(s) && w < |s.pool.workers|
  {
    var cr := s.sends[s.pool.workers[w].task].cr;
    exists r | 0 <= r < |s.rows| ::
      Lookup(s.rows, cr.taskId, cr.index) == [r] && (Alone(s, w) ==> s.rows[r].status == "SUCCESS")
  }

  /**
   * Done is real: a worker that reports success belongs to a task with exactly one row, its last
   * turn and none before read "100%" first and stored SUCCESS, and unless another worker was
   * started for the same task id and index the row still says SUCCESS.
   */
  lemma DoneIsReal(c: Config, s: State, w: nat)
    requires Reachable(c, s) && w < |s.pool.workers| && Succeeds(s.pool.workers[w].stage)
    ensures EndedComplete(s.pool.workers[w].turns)
    ensures TasksSent(s) && OneSuccessfulRow(s, w)
  {
    ReachableIsSafe(c, s);
    SucceededWorker(c, s, w);
    hide Safe, Reachable;
  }

  lemma SucceededWorker(c: Config, s: State, w: nat)
    requires Safe(c, s) && w < |s.pool.workers| && Succeeds(s.pool.workers[w].stage)
    ensures EndedComplete(s.pool.workers[w].turns)
    ensures TasksSent(s) && OneSuccessfulRow(s, w)
  {
    hide PoolSafe, NothingLost, StorageSeen, StatusTrue, HasRow, Lookup, EndedComplete;
    var cr := s.sends[s.pool.workers[w].task].cr;
    assert StageOk(c.limits, s.rows, cr.taskId, cr.index, s.pool.workers[w]);
    var r := RowOf(s.rows, cr.taskId, cr.index);
    SingleRow(s.rows, cr.taskId, cr.index, r);
    if Alone(s, w) {
      var q :| 0 <= q < |s.rows| && IsRow(s.rows, cr.taskId, cr.index, q) && s.rows[q].status == SUCCESS;
      SingleRow(s.rows, cr.taskId, cr.index, q);
      assert [q] == [r] && [q][0] == [r][0];
    }
  }

  ghost function RowOf(rows: seq<TaskRow>, taskId: string, index: string): (r: nat)
    requires HasRow(rows, taskId, index)
    ensures IsRow(rows, taskId, index, r)
  {
    var r :| 0 <= r < |rows| && IsRow(rows, taskId, index, r);
    r
  }

  /** A resource whose status is done has a worker as in DoneIsReal; as written none is ever done. */
  lemma DoneResourceIsReal(c: Config, s: State, key: Key)
    requires Reachable(c, s) && key in s.crs
    ensures s.crs[key].status == Some(true) ==> Fixed(c) && SomeWorkerSucceeded(s, key)
    ensures !Fixed(c) ==> s.crs[key].status == None
  {
    ReachableIsSafe(c, s);
  }

  /** No lost task: a resource whose event arrived is pending, in a Reconcile call, or was sent. */
  lemma NoTaskIsLost(c: Config, s: State, key: Key)
    requires Reachable(c, s) && key in s.noticed && key in s.crs
    ensures key in s.pending || InCall(s, key) || WasSent(s, key)
  {
    ReachableIsSafe(c, s);
  }

  /** Capacity: every task sent with a covering size, so with any binary one, had seen at least that
      much storage on its node. */
  lemma SentTasksHaveStorage(c: Config, s: State, t: nat)
    requires Reachable(c, s) && t < |s.sends| && (Covering(s.sends[t].cr.size) || BinarySize(s.sends[t].cr.size))
    ensures BinarySize(s.sends[t].cr.size) ==> ToGB(s.sends[t].cr.size).Ok?
    ensures ToGB(s.sends[t].cr.size).Ok? ==> StoredGB(s.sends[t].seen) >= ToGB(s.sends[t].cr.size).value
  {
    hide BinarySize, Covering, ToGB;
    ReachableIsSafe(c, s);
    assert Enough(s.sends[t].cr, s.sends[t].seen);
    if BinarySize(s.sends[t].cr.size) {
      BinaryIsCovering(s.sends[t].cr.size);
    }
  }
}
