/**
 * What every step of the restore pipeline keeps, and what therefore holds in every run: the pool's
 * bounds and conservation, rows before resources, no lost task, enough storage before a send.
 */
module PipelineSafety {
  import opened SizeText
  import opened Quantities
  import opened NodeSets
  import opened Polling
  import opened TaskPool
  import opened Pipeline
  import opened PipelineParts

  // ---------------------------------------------------------------- the pool

  ghost predicate PoolSafe(c: Config, s: State) {
    && Inv(c.limits, s.pool)
    && |s.sends| == s.pool.sent
  }

  lemma PoolSafeStep(c: Config, s: State, step: Step)
    requires PoolSafe(c, s) && Enabled(c, s, step)
    ensures PoolSafe(c, Next(c, s, step))
  {
    SendsMove(c, s, step);
    if OutsideStep(step) {
      OutsideParts(c, s, step);
      hide Next;
    } else if CallStep(step) {
      PoolSafeCall(c, s, step);
      hide Next;
    } else if PoolStep(step) {
      PoolSafeDispatch(c, s, step);
      hide Next;
    } else if step.FreeSlot? {
      InvRelease(c.limits, s.pool, step.worker);
    } else {
      WorkerMoves(c, s, step);
      var after := Next(c, s, step).pool.workers[step.worker];
      InvAdvance(c.limits, s.pool, step.worker, after.stage, after.turns);
      hide Next;
    }
    hide Inv, Enabled;
  }

  lemma PoolSafeCall(c: Config, s: State, step: Step)
    requires PoolSafe(c, s) && Enabled(c, s, step) && CallStep(step)
    ensures PoolSafe(c, Next(c, s, step))
  {
    match step {
      case SendTask(_) => InvSend(c.limits, s.pool);
      case HandTask(_, d) => InvHandoff(c.limits, s.pool, d);
      case _ => CallEffects(c, s, step); hide Next;
    }
    hide Inv;
  }

  lemma PoolSafeDispatch(c: Config, s: State, step: Step)
    requires PoolSafe(c, s) && Enabled(c, s, step) && PoolStep(step)
    ensures PoolSafe(c, Next(c, s, step))
  {
    match step {
      case ReceiveTask(d) => InvReceive(c.limits, s.pool, d);
      case ExitDispatcher(d) => InvExit(c.limits, s.pool, d);
      case AcquireSlot(d) => InvAcquire(c.limits, s.pool, d);
    }
    hide Inv;
  }

  // ---------------------------------------------------------------- rows come first

  predicate IsRow(rows: seq<TaskRow>, taskId: string, index: string, r: nat) {
    r < |rows| && rows[r].taskId == taskId && rows[r].index == index
  }

  predicate HasRow(rows: seq<TaskRow>, taskId: string, index: string) {
    exists r | 0 <= r < |rows| :: IsRow(rows, taskId, index, r)
  }

  predicate DistinctRows(rows: seq<TaskRow>) {
    forall i, j | 0 <= i < j < |rows| :: rows[i].taskId != rows[j].taskId || rows[i].index != rows[j].index
  }

  predicate RowsFirst(s: State) {
    && DistinctRows(s.rows)
    && (forall k | k in s.crs :: HasRow(s.rows, s.crs[k].taskId, s.crs[k].index))
    && (forall i | 0 <= i < |s.calls| && Carries(s.calls[i]) ::
        HasRow(s.rows, s.calls[i].cr.taskId, s.calls[i].cr.index))
    && (forall t | 0 <= t < |s.sends| :: HasRow(s.rows, s.sends[t].cr.taskId, s.sends[t].cr.index))
  }

  /** Rows are only added, and keep their task id and index. */
  predicate RowsGrow(before: seq<TaskRow>, after: seq<TaskRow>) {
    && |before| <= |after|
    && forall r | 0 <= r < |before| :: after[r].taskId == before[r].taskId && after[r].index == before[r].index
  }

  lemma RowsStep(c: Config, s: State, step: Step)
    requires DistinctRows(s.rows) && Enabled(c, s, step)
    ensures DistinctRows(Next(c, s, step).rows) && RowsGrow(s.rows, Next(c, s, step).rows)
  {
    if OutsideStep(step) {
      OutsideParts(c, s, step);
      assert step.CreateRow? ==> NoSuchRow(s.rows, step.taskId, step.index);
    } else if CallStep(step) {
      CallMoves(c, s, step);
    } else if PoolStep(step) {
      PoolParts(c, s, step);
    } else {
      RowsMove(c, s, step);
    }
    hide Next;
  }

  lemma HasRowStays(before: seq<TaskRow>, after: seq<TaskRow>, taskId: string, index: string)
    requires RowsGrow(before, after) && HasRow(before, taskId, index)
    ensures HasRow(after, taskId, index)
  {
    var r :| 0 <= r < |before| && IsRow(before, taskId, index, r);
    assert IsRow(after, taskId, index, r);
  }

  lemma RowsFirstStep(c: Config, s: State, step: Step)
    requires RowsFirst(s) && Enabled(c, s, step)
    ensures RowsFirst(Next(c, s, step))
  {
    var t := Next(c, s, step);
    RowsStep(c, s, step);
    forall taskId, index | HasRow(s.rows, taskId, index)
      ensures HasRow(t.rows, taskId, index)
    {
      HasRowStays(s.rows, t.rows, taskId, index);
    }
    StoredStep(c, s, step);
    CarriedStep(c, s, step);
    SentStep(c, s, step);
    hide HasRow, Next;
  }

  /** Every resource a step leaves anywhere was there before, or names an existing row. */
  lemma StoredStep(c: Config, s: State, step: Step)
    requires RowsFirst(s) && Enabled(c, s, step)
    ensures var t := Next(c, s, step);
            forall k | k in t.crs :: HasRow(s.rows, t.crs[k].taskId, t.crs[k].index)
  {
    ResourcesMove(c, s, step);
    if step.CreateCR? {
      assert IsRow(s.rows, s.rows[step.row].taskId, s.rows[step.row].index, step.row);
    }
    hide Next, Enabled;
  }

  lemma CarriedStep(c: Config, s: State, step: Step)
    requires RowsFirst(s) && Enabled(c, s, step)
    ensures var t := Next(c, s, step);
            forall i | 0 <= i < |t.calls| && Carries(t.calls[i]) ::
              HasRow(s.rows, t.calls[i].cr.taskId, t.calls[i].cr.index)
  {
    var t := Next(c, s, step);
    forall i | 0 <= i < |t.calls| && Carries(t.calls[i])
      ensures HasRow(s.rows, t.calls[i].cr.taskId, t.calls[i].cr.index)
    {
      CopyMoves(c, s, step, i);
    }
    hide Next, Enabled, HasRow;
  }

  lemma SentStep(c: Config, s: State, step: Step)
    requires RowsFirst(s) && Enabled(c, s, step)
    ensures var t := Next(c, s, step);
            forall n | 0 <= n < |t.sends| :: HasRow(s.rows, t.sends[n].cr.taskId, t.sends[n].cr.index)
  {
    SendsMove(c, s, step);
    hide Next, Enabled, HasRow;
  }

  // ---------------------------------------------------------------- no lost task

  predicate WasSent(s: State, key: Key) {
    exists t | 0 <= t < |s.sends| :: s.sends[t].key == key
  }

  /** Every resource that still exists and whose event arrived is pending, in a call, or was sent. */
  predicate NothingLost(s: State) {
    && s.noticed <= s.used
    && forall k | k in s.noticed && k in s.crs :: k in s.pending || InCall(s, k) || WasSent(s, k)
  }

  /** A key leaves the work queue and the calls only when its resource is gone or its task is sent. */
  lemma KeysAreDroppedForCause(c: Config, s: State, step: Step, k: Key)
    requires Enabled(c, s, step) && (k in s.pending || InCall(s, k))
    ensures var t := Next(c, s, step);
            || k in t.pending || InCall(t, k)
            || (step.Load? && step.ok && k !in s.crs)
            || (SendStep(step) && WasSent(t, k))
  {
    CallsMove(c, s, step);
    var t := Next(c, s, step);
    if CallStep(step) {
      CallKeys(c, s, step);
      if step.Take? && step.key == k {
        assert t.calls[step.call].key == k;
      } else if i :| 0 <= i < |s.calls| && s.calls[i] != Free && s.calls[i].key == k {
        CallKeyMoves(c, s, step, i);
      }
    } else {
      QueueElsewhere(c, s, step);
      assert InCall(s, k) ==> InCall(t, k);
    }
    hide Next, Enabled;
  }

  lemma QueueElsewhere(c: Config, s: State, step: Step)
    requires Enabled(c, s, step) && !CallStep(step)
    ensures s.pending <= Next(c, s, step).pending
  {
    if OutsideStep(step) {
      OutsideParts(c, s, step);
    } else if PoolStep(step) {
      PoolParts(c, s, step);
    } else {
      WorkerMoves(c, s, step);
    }
    hide Next, Enabled;
  }

  lemma CallKeyMoves(c: Config, s: State, step: Step, i: nat)
    requires Enabled(c, s, step) && CallStep(step) && i < |s.calls| && s.calls[i] != Free
    ensures var t, k := Next(c, s, step), s.calls[i].key;
            || InCall(t, k)
            || k in t.pending
            || (step.Load? && step.ok && k !in s.crs)
            || (SendStep(step) && WasSent(t, k))
  {
    var t, k := Next(c, s, step), s.calls[i].key;
    CallMoves(c, s, step);
    CallKeys(c, s, step);
    SendsMove(c, s, step);
    if t.calls[i] != Free && t.calls[i].key == k {
    } else if SendStep(step) {
      assert t.sends[|s.sends|].key == k;
    }
    hide Next, Enabled;
  }

  lemma NothingLostStep(c: Config, s: State, step: Step)
    requires NothingLost(s) && Enabled(c, s, step) && s.crs.Keys <= s.used
    ensures NothingLost(Next(c, s, step))
  {
    var t := Next(c, s, step);
    NoticedStep(c, s, step);
    SendsMove(c, s, step);
    forall k | k in t.noticed && k in t.crs
      ensures k in t.pending || InCall(t, k) || WasSent(t, k)
    {
      if k in s.noticed {
        if n :| 0 <= n < |s.sends| && s.sends[n].key == k {
          assert t.sends[n].key == k;
        } else {
          KeysAreDroppedForCause(c, s, step, k);
        }
      }
    }
    hide Next, Enabled;
  }

  lemma NoticedStep(c: Config, s: State, step: Step)
    requires s.noticed <= s.used && s.crs.Keys <= s.used && Enabled(c, s, step)
    ensures var t := Next(c, s, step);
            && t.noticed <= t.used
            && (forall k | k in t.noticed && k !in s.noticed :: k in t.pending)
            && (forall k | k in s.noticed && k in t.crs :: k in s.crs)
  {
    ResourcesMove(c, s, step);
    if OutsideStep(step) {
      OutsideParts(c, s, step);
      hide Next;
    } else if CallStep(step) {
      CallMoves(c, s, step);
      hide Next;
    } else if PoolStep(step) {
      PoolParts(c, s, step);
      hide Next;
    } else {
      WorkerMoves(c, s, step);
      hide Next;
    }
  }

  // ---------------------------------------------------------------- enough storage

  /** What a call saw covers its request, when that is a covering size. */
  predicate Enough(cr: CR, seen: nat) {
    Covering(cr.size) && ToGB(cr.size).Ok? ==> StoredGB(seen) >= ToGB(cr.size).value
  }

  predicate StorageSeen(s: State) {
    && (forall i | 0 <= i < |s.calls| && (s.calls[i].Sized? || s.calls[i].Sending?) ::
        Enough(s.calls[i].cr, s.calls[i].seen))
    && forall t | 0 <= t < |s.sends| :: Enough(s.sends[t].cr, s.sends[t].seen)
  }

  lemma EnsureIsEnough(sets: seq<NodeSet>, cr: CR, count: nat, code: ResizeCode)
    requires EnsureNode(sets, cr.node, cr.size, count, code).Ok?
    ensures Enough(cr, EnsureNode(sets, cr.node, cr.size, count, code).value.1)
  {
    hide EnsureNode, Covering, ToGB;
    if ToGB(cr.size).Ok? {
      EnsureSeesEnough(sets, cr.node, cr.size, count, code);
    }
  }

  lemma SeenIsEnough(c: Config, s: State, step: Step, i: nat)
    requires StorageSeen(s) && Enabled(c, s, step) && CallStep(step) && step.call == i
    requires i < |Next(c, s, step).calls| && (Next(c, s, step).calls[i].Sized? || Next(c, s, step).calls[i].Sending?)
    ensures Enough(Next(c, s, step).calls[i].cr, Next(c, s, step).calls[i].seen)
  {
    var t := Next(c, s, step);
    SeenMoves(c, s, step);
    CopyMoves(c, s, step, i);
    if t.calls[i].Sized? {
      EnsureIsEnough(s.calls[i].snapshot, s.calls[i].cr, c.nodeCount, c.code.resize);
    }
    hide Next, Enabled, Enough, EnsureNode;
  }

  lemma StorageSeenStep(c: Config, s: State, step: Step)
    requires StorageSeen(s) && Enabled(c, s, step)
    ensures StorageSeen(Next(c, s, step))
  {
    hide Next, Enabled, Enough, CallMoved;
    var t := Next(c, s, step);
    SendsMove(c, s, step);
    CallsMove(c, s, step);
    forall i | 0 <= i < |t.calls| && (t.calls[i].Sized? || t.calls[i].Sending?)
      ensures Enough(t.calls[i].cr, t.calls[i].seen)
    {
      CallIsEnough(c, s, step, i);
    }
  }

  lemma CallIsEnough(c: Config, s: State, step: Step, i: nat)
    requires StorageSeen(s) && Enabled(c, s, step)
    requires i < |Next(c, s, step).calls| && (Next(c, s, step).calls[i].Sized? || Next(c, s, step).calls[i].Sending?)
    ensures Enough(Next(c, s, step).calls[i].cr, Next(c, s, step).calls[i].seen)
  {
    CallsMove(c, s, step);
    if CallStep(step) && step.call == i {
      SeenIsEnough(c, s, step, i);
    }
    hide Next, Enabled, Enough;
  }
}
