/**
 * Done means done: in every run of the restore pipeline a worker that reports success has seen its
 * index complete and has stored SUCCESS in the one row of its task.
 */
module PipelineDone {
  import opened Wrappers
  import opened Polling
  import opened TaskPool
  import opened Pipeline
  import opened PipelineParts
  import opened PipelineSafety

  // ---------------------------------------------------------------- what workers know

  /** The last turn, and none before it, ends the loop, by reading "100%" first and storing SUCCESS. */
  predicate EndedComplete(turns: seq<Turn>) {
    && turns != []
    && (forall i | 0 <= i < |turns| :: turns[i].Tick?)
    && forall i | 0 <= i < |turns| ::
         i == |turns| - 1 <==> && turns[i].stored && turns[i].recovery.Percents?
                               && turns[i].recovery.rows != [] && turns[i].recovery.rows[0] == "100%"
  }

  predicate Succeeds(stage: Stage) {
    (stage.Reporting? || stage.Reported? || stage.Released?) && stage.done
  }

  predicate StageOk(limits: Limits, rows: seq<TaskRow>, taskId: string, index: string, w: Worker) {
    match w.stage
    case Querying => true
    case Restoring(r) => IsRow(rows, taskId, index, r)
    case PollingRow(r) =>
      IsRow(rows, taskId, index, r) && FirstDecisive(w.turns) == |w.turns| <= limits.maxPolls
    case _ => Succeeds(w.stage) ==> EndedComplete(w.turns)
  }

  predicate WorkersOk(c: Config, s: State) {
    forall w | 0 <= w < |s.pool.workers| ::
      && s.pool.workers[w].task < |s.sends|
      && var cr := s.sends[s.pool.workers[w].task].cr;
         StageOk(c.limits, s.rows, cr.taskId, cr.index, s.pool.workers[w])
  }

  lemma {:induction false} NoRow(rows: seq<TaskRow>, taskId: string, index: string)
    requires forall r | 0 <= r < |rows| :: !IsRow(rows, taskId, index, r)
    ensures Lookup(rows, taskId, index) == []
  {
    if rows == [] {
    } else {
      var front := rows[..|rows| - 1];
      assert !IsRow(rows, taskId, index, |front|);
      forall r | 0 <= r < |front|
        ensures !IsRow(front, taskId, index, r)
      {
        assert !IsRow(rows, taskId, index, r);
      }
      NoRow(front, taskId, index);
    }
  }

  lemma {:induction false} SingleRow(rows: seq<TaskRow>, taskId: string, index: string, r: nat)
    requires DistinctRows(rows) && IsRow(rows, taskId, index, r)
    ensures Lookup(rows, taskId, index) == [r]
  {
    var front := rows[..|rows| - 1];
    if r == |front| {
      NoRow(front, taskId, index);
    } else {
      SingleRow(front, taskId, index, r);
    }
  }

  lemma StageStays(limits: Limits, before: seq<TaskRow>, after: seq<TaskRow>, taskId: string, index: string, w: Worker)
    requires RowsGrow(before, after) && StageOk(limits, before, taskId, index, w)
    ensures StageOk(limits, after, taskId, index, w)
  {
  }

  /** A polled turn is either passed over, or decides. */
  lemma OneMoreTurn(turns: seq<Turn>, turn: Turn)
    requires FirstDecisive(turns) == |turns|
    ensures FirstDecisive(turns + [turn]) == if Decisive(turn) then |turns| else |turns| + 1
  {
    FirstDecisiveIs(turns + [turn], if Decisive(turn) then |turns| else |turns| + 1);
  }

  /** A step of one worker. */
  predicate WorkerStep(c: Config, s: State, step: Step) {
    RunStep(step) && Enabled(c, s, step)
  }

  /** The lookup of a task whose row came first finds that row. */
  lemma QueriedWorker(c: Config, s: State, w: nat, ok: bool)
    requires Enabled(c, s, QueryRow(w, ok)) && RowsFirst(s)
    ensures var cr, t := s.sends[s.pool.workers[w].task].cr, Next(c, s, QueryRow(w, ok));
            && t.rows == s.rows
            && (if ok then t.pool.workers[w].stage.Restoring?
                && IsRow(s.rows, cr.taskId, cr.index, t.pool.workers[w].stage.row)
                else t.pool.workers[w].stage == Reporting(false))
  {
    var cr := s.sends[s.pool.workers[w].task].cr;
    var r :| 0 <= r < |s.rows| && IsRow(s.rows, cr.taskId, cr.index, r);
    SingleRow(s.rows, cr.taskId, cr.index, r);
    hide Lookup, DistinctRows, RowsFirst;
  }

  lemma PolledWorker(c: Config, s: State, w: nat, turn: Turn)
    requires Enabled(c, s, Poll(w, turn)) && WorkersOk(c, s)
    ensures var cr, t := s.sends[s.pool.workers[w].task].cr, Next(c, s, Poll(w, turn));
            StageOk(c.limits, t.rows, cr.taskId, cr.index, t.pool.workers[w])
  {
    hide FirstDecisive;
    OneMoreTurn(s.pool.workers[w].turns, turn);
  }

  /** The worker a step moves is fine again. */
  lemma MovedWorker(c: Config, s: State, step: Step)
    requires WorkerStep(c, s, step) && WorkersOk(c, s) && RowsFirst(s)
    ensures var t := Next(c, s, step);
            && step.worker < |t.pool.workers|
            && t.pool.workers[step.worker].task == s.pool.workers[step.worker].task
            && var cr := s.sends[s.pool.workers[step.worker].task].cr;
               StageOk(c.limits, t.rows, cr.taskId, cr.index, t.pool.workers[step.worker])
  {
    if step.QueryRow? {
      QueriedWorker(c, s, step.worker, step.ok);
      hide Lookup, RowsFirst;
    } else if step.Poll? {
      PolledWorker(c, s, step.worker, step.turn);
      hide FirstDecisive, RowsFirst;
    } else {
      OtherMoves(c, s, step);
      hide Next, RowsFirst;
    }
  }

  lemma OtherMoves(c: Config, s: State, step: Step)
    requires WorkerStep(c, s, step) && !step.QueryRow? && !step.Poll? && WorkersOk(c, s)
    ensures var t := Next(c, s, step);
            && step.worker < |t.pool.workers|
            && t.pool.workers[step.worker].task == s.pool.workers[step.worker].task
            && var cr := s.sends[s.pool.workers[step.worker].task].cr;
               StageOk(c.limits, t.rows, cr.taskId, cr.index, t.pool.workers[step.worker])
  {
    hide FirstDecisive;
    assert FirstDecisive([]) == 0;
  }

  /** What a step does to the list of workers. */
  lemma WorkersMove(c: Config, s: State, step: Step)
    requires Enabled(c, s, step)
    ensures var t := Next(c, s, step);
            && s.sends <= t.sends
            && |s.pool.workers| <= |t.pool.workers|
            && (step.AcquireSlot? ==>
                  t.pool.workers
                    == s.pool.workers + [Worker(s.pool.dispatchers[step.dispatcher].task, TaskPool.Querying, [])])
            && (!step.AcquireSlot? ==> |t.pool.workers| == |s.pool.workers|)
            && (forall v | 0 <= v < |s.pool.workers| && !(WorkerStep(c, s, step) && step.worker == v) ::
                  t.pool.workers[v] == s.pool.workers[v])
            && (forall v | 0 <= v < |s.pool.workers| :: t.pool.workers[v].task == s.pool.workers[v].task)
  {
    SendsMove(c, s, step);
    if OutsideStep(step) {
      OutsideParts(c, s, step);
    } else if CallStep(step) {
      CallEffects(c, s, step);
    } else if PoolStep(step) {
      PoolParts(c, s, step);
    } else {
      WorkerMoves(c, s, step);
    }
    hide Next, Enabled;
  }

  lemma HeldTaskIsSent(c: Config, s: State, d: nat)
    requires PoolSafe(c, s) && d < |s.pool.dispatchers| && s.pool.dispatchers[d].Holding?
    ensures s.pool.dispatchers[d].task < |s.sends|
  {
    var t := s.pool.dispatchers[d].task;
    PlacesAre(s.pool, t);
    assert t in HeldTask(s.pool.dispatchers[d]);
    EachTaskInOnePlace(c.limits, s.pool, t);
  }

  lemma WorkersOkStep(c: Config, s: State, step: Step)
    requires WorkersOk(c, s) && RowsFirst(s) && PoolSafe(c, s) && Enabled(c, s, step)
    ensures WorkersOk(c, Next(c, s, step))
  {
    hide Next, Lookup, FirstDecisive, RowsGrow, PoolSafe;
    var t := Next(c, s, step);
    RowsStep(c, s, step);
    WorkersMove(c, s, step);
    if step.AcquireSlot? {
      HeldTaskIsSent(c, s, step.dispatcher);
    } else if WorkerStep(c, s, step) {
      MovedWorker(c, s, step);
    }
    hide Enabled, RowsFirst;
    forall v | 0 <= v < |t.pool.workers|
      ensures t.pool.workers[v].task < |t.sends|
      ensures var cr := t.sends[t.pool.workers[v].task].cr;
              StageOk(c.limits, t.rows, cr.taskId, cr.index, t.pool.workers[v])
    {
      if v < |s.pool.workers| && t.pool.workers[v] == s.pool.workers[v] {
        var cr := s.sends[s.pool.workers[v].task].cr;
        StageStays(c.limits, s.rows, t.rows, cr.taskId, cr.index, s.pool.workers[v]);
      }
    }
  }

  // ---------------------------------------------------------------- the stored status

  /** No other worker was started for the same task id and index. */
  predicate Alone(s: State, w: nat)
    requires w < |s.pool.workers|
    requires forall v | 0 <= v < |s.pool.workers| :: s.pool.workers[v].task < |s.sends|
  {
    forall v | 0 <= v < |s.pool.workers| && v != w ::
      var mine, other := s.sends[s.pool.workers[w].task].cr, s.sends[s.pool.workers[v].task].cr;
      other.taskId != mine.taskId || other.index != mine.index
  }

  predicate TasksSent(s: State) {
    forall v | 0 <= v < |s.pool.workers| :: s.pool.workers[v].task < |s.sends|
  }

  /** A success that nobody else could overwrite is in the table. */
  predicate SuccessStored(s: State) {
    && TasksSent(s)
    && forall w | 0 <= w < |s.pool.workers| && Succeeds(s.pool.workers[w].stage) && Alone(s, w) ::
         var cr := s.sends[s.pool.workers[w].task].cr;
         exists r | 0 <= r < |s.rows| :: IsRow(s.rows, cr.taskId, cr.index, r) && s.rows[r].status == SUCCESS
  }

  /** Steps change the status of a row only in the name of a worker that polls or restores it. */
  lemma StatusMoves(c: Config, s: State, step: Step, r: nat)
    requires WorkersOk(c, s) && Enabled(c, s, step) && r < |s.rows|
    ensures r < |Next(c, s, step).rows|
    ensures Next(c, s, step).rows[r].status != s.rows[r].status ==>
              && WorkerStep(c, s, step)
              && var cr := s.sends[s.pool.workers[step.worker].task].cr;
                 IsRow(s.rows, cr.taskId, cr.index, r)
  {
    if OutsideStep(step) {
      OutsideParts(c, s, step);
    } else if CallStep(step) {
      CallMoves(c, s, step);
    } else if PoolStep(step) {
      PoolParts(c, s, step);
    } else {
      RowsMove(c, s, step);
    }
    hide Next, Enabled, FirstDecisive;
  }

  /** The turn with which a polling worker succeeds stores SUCCESS in its row. */
  lemma PolledSuccess(c: Config, s: State, w: nat, turn: Turn)
    requires Enabled(c, s, Poll(w, turn)) && WorkersOk(c, s)
    requires Succeeds(Next(c, s, Poll(w, turn)).pool.workers[w].stage)
    ensures var t, cr, r := Next(c, s, Poll(w, turn)), s.sends[s.pool.workers[w].task].cr, s.pool.workers[w].stage.row;
            IsRow(t.rows, cr.taskId, cr.index, r) && t.rows[r].status == SUCCESS
  {
    hide FirstDecisive;
  }

  /** The step in which a worker comes to succeed stores SUCCESS in its row. */
  lemma SuccessIsStored(c: Config, s: State, step: Step)
    requires WorkersOk(c, s) && RowsFirst(s) && WorkerStep(c, s, step)
    requires step.worker < |s.pool.workers| && step.worker < |Next(c, s, step).pool.workers|
    requires !Succeeds(s.pool.workers[step.worker].stage)
    requires Succeeds(Next(c, s, step).pool.workers[step.worker].stage)
    ensures var t, cr := Next(c, s, step), s.sends[s.pool.workers[step.worker].task].cr;
            exists r | 0 <= r < |t.rows| :: IsRow(t.rows, cr.taskId, cr.index, r) && t.rows[r].status == SUCCESS
  {
    OnlyPollSucceeds(c, s, step);
    PolledSuccess(c, s, step.worker, step.turn);
    hide Next, RowsFirst, WorkersOk;
  }

  lemma OnlyPollSucceeds(c: Config, s: State, step: Step)
    requires RowsFirst(s) && WorkerStep(c, s, step)
    requires step.worker < |s.pool.workers| && step.worker < |Next(c, s, step).pool.workers|
    requires !Succeeds(s.pool.workers[step.worker].stage)
    requires Succeeds(Next(c, s, step).pool.workers[step.worker].stage)
    ensures step.Poll?
  {
    if step.QueryRow? {
      QueriedWorker(c, s, step.worker, step.ok);
    }
    hide RowsFirst, Lookup, FirstDecisive;
  }

  lemma SuccessStoredStep(c: Config, s: State, step: Step)
    requires SuccessStored(s) && WorkersOk(c, s) && RowsFirst(s) && PoolSafe(c, s) && Enabled(c, s, step)
    ensures SuccessStored(Next(c, s, step))
  {
    var t := Next(c, s, step);
    RowsStep(c, s, step);
    WorkersMove(c, s, step);
    WorkersOkStep(c, s, step);
    hide Lookup, FirstDecisive;
    forall w | 0 <= w < |t.pool.workers| && Succeeds(t.pool.workers[w].stage) && Alone(t, w)
      ensures var cr := t.sends[t.pool.workers[w].task].cr;
              exists r | 0 <= r < |t.rows| :: IsRow(t.rows, cr.taskId, cr.index, r) && t.rows[r].status == SUCCESS
    {
      OneSuccess(c, s, step, w);
    }
  }

  lemma OneSuccess(c: Config, s: State, step: Step, w: nat)
    requires SuccessStored(s) && WorkersOk(c, s) && RowsFirst(s) && Enabled(c, s, step)
    requires TasksSent(Next(c, s, step)) && w < |Next(c, s, step).pool.workers|
    requires Succeeds(Next(c, s, step).pool.workers[w].stage) && Alone(Next(c, s, step), w)
    ensures var t := Next(c, s, step);
            var cr := t.sends[t.pool.workers[w].task].cr;
            exists r | 0 <= r < |t.rows| :: IsRow(t.rows, cr.taskId, cr.index, r) && t.rows[r].status == SUCCESS
  {
    var t := Next(c, s, step);
    WorkersMove(c, s, step);
    if Succeeds(s.pool.workers[w].stage) {
      var cr := s.sends[s.pool.workers[w].task].cr;
      StillAlone(s, t, w);
      var r :| 0 <= r < |s.rows| && IsRow(s.rows, cr.taskId, cr.index, r) && s.rows[r].status == SUCCESS;
      SuccessIsKept(c, s, step, w, r);
      hide Next, Enabled, SuccessStored, WorkersOk, RowsFirst;
    } else {
      SuccessIsStored(c, s, step);
      hide Next, Enabled, SuccessStored, RowsFirst;
    }
  }

  /** The row of a success keeps its status: nobody else works on it, and its own worker is done. */
  lemma SuccessIsKept(c: Config, s: State, step: Step, w: nat, r: nat)
    requires WorkersOk(c, s) && RowsFirst(s) && TasksSent(s) && Enabled(c, s, step) && w < |s.pool.workers|
             && r < |s.rows|
    requires Succeeds(s.pool.workers[w].stage) && Alone(s, w) && s.rows[r].status == SUCCESS
    requires var cr := s.sends[s.pool.workers[w].task].cr; IsRow(s.rows, cr.taskId, cr.index, r)
    ensures var t, cr := Next(c, s, step), s.sends[s.pool.workers[w].task].cr;
            IsRow(t.rows, cr.taskId, cr.index, r) && t.rows[r].status == SUCCESS
  {
    RowsStep(c, s, step);
    StatusMoves(c, s, step, r);
    if WorkerStep(c, s, step) && step.worker == w {
      SuccessIsFinal(c, s, step, w);
    }
    hide Next, Enabled, WorkersOk;
  }

  lemma StillAlone(s: State, t: State, w: nat)
    requires TasksSent(s) && TasksSent(t) && w < |s.pool.workers| <= |t.pool.workers| && s.sends <= t.sends
    requires forall v | 0 <= v < |s.pool.workers| :: t.pool.workers[v].task == s.pool.workers[v].task
    requires Alone(t, w)
    ensures Alone(s, w)
  {
  }

  /** A worker that has succeeded never writes to the table again. */
  lemma SuccessIsFinal(c: Config, s: State, step: Step, w: nat)
    requires Enabled(c, s, step) && w < |s.pool.workers| && Succeeds(s.pool.workers[w].stage)
    requires WorkerStep(c, s, step) && step.worker == w
    ensures Next(c, s, step).rows == s.rows
  {
  }

  // ---------------------------------------------------------------- the status of the resource

  predicate Fixed(c: Config) {
    c.code.keyFixed && c.code.statusFixed
  }

  /** A resource is done only if one of its workers succeeded; as written none ever is. */
  predicate StatusTrue(c: Config, s: State) {
    && "" !in s.crs && "" !in s.used
    && s.crs.Keys <= s.used
    && forall k | k in s.crs ::
         && (!Fixed(c) ==> s.crs[k].status == None)
         && (s.crs[k].status == Some(true) ==> SomeWorkerSucceeded(s, k))
  }

  predicate SomeWorkerSucceeded(s: State, k: Key) {
    exists w | 0 <= w < |s.pool.workers| ::
      && Succeeds(s.pool.workers[w].stage)
      && s.pool.workers[w].task < |s.sends|
      && s.sends[s.pool.workers[w].task].key == k
  }

  lemma SuccessLasts(c: Config, s: State, step: Step, k: Key)
    requires Enabled(c, s, step) && SomeWorkerSucceeded(s, k)
    ensures SomeWorkerSucceeded(Next(c, s, step), k)
  {
    var t := Next(c, s, step);
    WorkersMove(c, s, step);
    var w :| 0 <= w < |s.pool.workers| && Succeeds(s.pool.workers[w].stage)
             && s.pool.workers[w].task < |s.sends| && s.sends[s.pool.workers[w].task].key == k;
    SuccessKept(c, s, step, w);
    hide Next, Enabled;
    assert t.sends[t.pool.workers[w].task].key == k;
  }

  lemma SuccessKept(c: Config, s: State, step: Step, w: nat)
    requires Enabled(c, s, step) && w < |s.pool.workers| && Succeeds(s.pool.workers[w].stage)
    ensures w < |Next(c, s, step).pool.workers| && Succeeds(Next(c, s, step).pool.workers[w].stage)
  {
    WorkersMove(c, s, step);
    if WorkerStep(c, s, step) && step.worker == w {
      SuccessAdvances(c, s, step);
    }
    hide Next, Enabled;
  }

  lemma SuccessAdvances(c: Config, s: State, step: Step)
    requires WorkerStep(c, s, step) && step.worker < |s.pool.workers| && Succeeds(s.pool.workers[step.worker].stage)
    ensures step.worker < |Next(c, s, step).pool.workers|
    ensures Succeeds(Next(c, s, step).pool.workers[step.worker].stage)
  {
    hide Lookup;
  }

  /** A status is only ever written for the resource of the reporting worker's own task. */
  lemma StatusWrite(c: Config, s: State, step: Step, k: Key)
    requires StatusTrue(c, s) && Enabled(c, s, step) && k in Next(c, s, step).crs
    ensures var status := Next(c, s, step).crs[k].status;
            || status == None
            || (k in s.crs && s.crs[k].status == status)
            || (Fixed(c) && step.Report? && s.sends[s.pool.workers[step.worker].task].key == k
                && status == Some(s.pool.workers[step.worker].stage.done))
  {
    if step.Report? {
      ReportWrites(c, s, step);
    } else {
      StatusElsewhere(c, s, step);
    }
    hide Next, Enabled, SomeWorkerSucceeded;
  }

  lemma ReportWrites(c: Config, s: State, step: Step)
    requires StatusTrue(c, s) && Enabled(c, s, step) && step.Report?
    ensures var t, key := Next(c, s, step), s.sends[s.pool.workers[step.worker].task].key;
            && t.crs.Keys == s.crs.Keys
            && (forall k | k in s.crs && !(Fixed(c) && k == key) :: t.crs[k] == s.crs[k])
            && (key in s.crs ==> t.crs[key].status == s.crs[key].status
                                 || t.crs[key].status == Some(s.pool.workers[step.worker].stage.done))
  {
    hide SomeWorkerSucceeded;
  }

  lemma StatusElsewhere(c: Config, s: State, step: Step)
    requires Enabled(c, s, step) && !step.Report?
    ensures forall k | k in Next(c, s, step).crs ::
              || Next(c, s, step).crs[k].status == None
              || (k in s.crs && Next(c, s, step).crs[k].status == s.crs[k].status)
  {
    if OutsideStep(step) {
      OutsideParts(c, s, step);
    } else if step.MarkStart? {
      MarkKeeps(c, s, step);
    } else if CallStep(step) {
      CallEffects(c, s, step);
    } else if PoolStep(step) {
      PoolParts(c, s, step);
    } else {
      WorkerMoves(c, s, step);
    }
    hide Next, Enabled;
  }

  lemma StatusTrueStep(c: Config, s: State, step: Step)
    requires StatusTrue(c, s) && Enabled(c, s, step)
    ensures StatusTrue(c, Next(c, s, step))
  {
    var t := Next(c, s, step);
    KeysStep(c, s, step);
    forall k | k in t.crs
      ensures !Fixed(c) ==> t.crs[k].status == None
      ensures t.crs[k].status == Some(true) ==> SomeWorkerSucceeded(t, k)
    {
      StatusWrite(c, s, step, k);
      if k in s.crs && s.crs[k].status == Some(true) {
        SuccessLasts(c, s, step, k);
      } else if step.Report? && s.pool.workers[step.worker].stage.done
        && s.sends[s.pool.workers[step.worker].task].key == k {
        assert SomeWorkerSucceeded(s, k);
        SuccessLasts(c, s, step, k);
      }
      hide Next, Enabled, SomeWorkerSucceeded;
    }
  }

  lemma KeysStep(c: Config, s: State, step: Step)
    requires StatusTrue(c, s) && Enabled(c, s, step)
    ensures var t := Next(c, s, step);
            "" !in t.crs && "" !in t.used && t.crs.Keys <= t.used
  {
    ResourcesMove(c, s, step);
    if OutsideStep(step) {
      OutsideParts(c, s, step);
      hide Next;
    } else if CallStep(step) {
      CallMoves(c, s, step);
      hide Next;
    } else if PoolStep(step) {
      PoolParts(c, s, step);
      hide Next;
    } else {
      WorkerMoves(c, s, step);
      hide Next;
    }
    hide SomeWorkerSucceeded;
  }
}
