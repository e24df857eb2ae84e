/**
 * How often a task is sent: the work queue hands a resource to Reconcile once for each of its events,
 * and Reconcile never looks at what has become of it, so each event may send its task once more.
 */
module PipelineOnce {
  import opened NodeSets
  import opened Polling
  import opened TaskPool
  import opened Pipeline
  import opened PipelineParts
  import opened PipelineSafety
  import opened PipelineDone
  import opened PipelineRuns

  // ---------------------------------------------------------------- events and resources of a run

  /** How many events of the key arrive in the run. */
  function Notices(steps: seq<Step>, key: Key): nat {
    if steps == [] then 0
    else Notices(steps[..|steps| - 1], key) + One(steps[|steps| - 1] == Notice(key))
  }

  function One(b: bool): nat {
    if b then 1 else 0
  }

  /** The row each resource was created for. */
  function KeyRows(steps: seq<Step>): map<Key, nat> {
    if steps == [] then map[]
    else
      var before, last := KeyRows(steps[..|steps| - 1]), steps[|steps| - 1];
      if last.CreateCR? then before[last.key := last.row] else before
  }

  function ResourcesOf(steps: seq<Step>, row: nat): set<Key> {
    set k | k in KeyRows(steps) && KeyRows(steps)[k] == row
  }

  /** Each row has at most so many resources, and each resource at most so many events. */
  ghost predicate Limited(steps: seq<Step>, resources: nat, events: nat) {
    && (forall row: nat :: |ResourcesOf(steps, row)| <= resources)
    && (forall key :: Notices(steps, key) <= events)
  }

  // ---------------------------------------------------------------- at most one send for each event

  /** No two calls have one key. */
  predicate CallsApart(s: State) {
    forall i, j | 0 <= i < j < |s.calls| && s.calls[i] != Free && s.calls[j] != Free :: s.calls[i].key != s.calls[j].key
  }

  function SentFor(s: State, key: Key): set<nat> {
    set t: nat | t < |s.sends| && s.sends[t].key == key
  }

  /** Chances of the key: it waits, a call has it, it was sent. */
  function Chances(s: State, key: Key): nat {
    One(key in s.pending) + One(InCall(s, key)) + |SentFor(s, key)|
  }

  lemma CallsApartStep(c: Config, s: State, step: Step)
    requires CallsApart(s) && Enabled(c, s, step)
    ensures CallsApart(Next(c, s, step))
  {
    CallsMove(c, s, step);
    if step.Take? {
      TakenIsNew(c, s, step);
    }
    hide Next, Enabled;
  }

  lemma TakenIsNew(c: Config, s: State, step: Step)
    requires Enabled(c, s, step) && step.Take?
    ensures forall i | 0 <= i < |s.calls| && s.calls[i] != Free :: s.calls[i].key != step.key
  {
    assert !InCall(s, step.key);
  }

  /** A call that goes on leaves the work queue alone, and so does one that sends. */
  lemma CallQueues(c: Config, s: State, step: Step)
    requires Enabled(c, s, step) && CallStep(step) && !step.Take?
    ensures var t, i := Next(c, s, step), step.call;
            && i < |s.calls| == |t.calls|
            && (t.calls[i] != Free || SendStep(step) ==> t.pending == s.pending)
            && (SendStep(step) ==> t.calls[i] == Free)
  {
    hide EnsureNode, InCall;
  }

  lemma SentForMoves(c: Config, s: State, step: Step, key: Key)
    requires Enabled(c, s, step)
    ensures if SendStep(step) && step.call < |s.calls| && s.calls[step.call].Sending? && s.calls[step.call].key == key
            then |SentFor(Next(c, s, step), key)| == |SentFor(s, key)| + 1
            else SentFor(Next(c, s, step), key) == SentFor(s, key)
  {
    var t := Next(c, s, step);
    SendsMove(c, s, step);
    hide Next, Enabled;
    if SendStep(step) {
      OneMoreSent(s, t, key);
    }
  }

  lemma OneMoreSent(s: State, t: State, key: Key)
    requires |t.sends| == |s.sends| + 1 && t.sends[..|s.sends|] == s.sends
    ensures if t.sends[|s.sends|].key == key then |SentFor(t, key)| == |SentFor(s, key)| + 1
            else SentFor(t, key) == SentFor(s, key)
  {
    var n := |s.sends|;
    forall m | 0 <= m < n
      ensures m in SentFor(t, key) <==> m in SentFor(s, key)
    {
      assert t.sends[m] == t.sends[..n][m];
    }
    assert forall m | m in SentFor(t, key) :: m <= n;
    assert SentFor(t, key) == SentFor(s, key) + if t.sends[n].key == key then {n} else {};
  }

  /** The call whose step it is has the key: it keeps it, or gives it back, or sends, or drops it. */
  lemma OwnCallChances(c: Config, s: State, step: Step, key: Key)
    requires CallsApart(s) && Enabled(c, s, step) && CallStep(step) && !step.Take?
    requires step.call < |s.calls| && s.calls[step.call] != Free && s.calls[step.call].key == key
    ensures Chances(Next(c, s, step), key) <= Chances(s, key)
  {
    var t, i := Next(c, s, step), step.call;
    CallMoves(c, s, step);
    CallKeys(c, s, step);
    CallQueues(c, s, step);
    SendsMove(c, s, step);
    SentForMoves(c, s, step, key);
    hide Next, Enabled, SentFor;
    assert InCall(s, key);
    if t.calls[i] == Free {
      assert !InCall(t, key);
    }
  }

  lemma OtherCallChances(c: Config, s: State, step: Step, key: Key)
    requires Enabled(c, s, step) && CallStep(step) && !step.Take?
    requires step.call < |s.calls| && s.calls[step.call] != Free && s.calls[step.call].key != key
    ensures Chances(Next(c, s, step), key) == Chances(s, key)
  {
    var t, i := Next(c, s, step), step.call;
    CallMoves(c, s, step);
    CallKeys(c, s, step);
    SentForMoves(c, s, step, key);
    hide Next, Enabled, SentFor;
    assert InCall(t, key) == InCall(s, key) by {
      if j :| 0 <= j < |s.calls| && s.calls[j] != Free && s.calls[j].key == key {
        assert t.calls[j] == s.calls[j];
      }
    }
  }

  lemma TakeChances(c: Config, s: State, step: Step, key: Key)
    requires Enabled(c, s, step) && step.Take?
    ensures Chances(Next(c, s, step), key) == Chances(s, key)
  {
    var t, i := Next(c, s, step), step.call;
    CallMoves(c, s, step);
    CallKeys(c, s, step);
    SentForMoves(c, s, step, key);
    assert !InCall(s, step.key);
    hide Next, Enabled, SentFor;
    assert t.calls[i].key == step.key;
    assert InCall(t, key) == (key == step.key || InCall(s, key)) by {
      if j :| 0 <= j < |s.calls| && s.calls[j] != Free && s.calls[j].key == key {
        assert t.calls[j] == s.calls[j];
      }
    }
  }

  lemma ChancesStep(c: Config, s: State, step: Step, key: Key)
    requires CallsApart(s) && Enabled(c, s, step)
    ensures Chances(Next(c, s, step), key) <= Chances(s, key) + One(step == Notice(key))
  {
    if step.Take? {
      TakeChances(c, s, step, key);
    } else if CallStep(step) {
      CallMoves(c, s, step);
      if s.calls[step.call].key == key {
        OwnCallChances(c, s, step, key);
      } else {
        OtherCallChances(c, s, step, key);
      }
    } else {
      ElsewhereChances(c, s, step, key);
    }
    hide Next, Chances;
  }

  lemma ElsewhereChances(c: Config, s: State, step: Step, key: Key)
    requires Enabled(c, s, step) && !CallStep(step)
    ensures Chances(Next(c, s, step), key) <= Chances(s, key) + One(step == Notice(key))
  {
    CallsMove(c, s, step);
    SentForMoves(c, s, step, key);
    assert InCall(Next(c, s, step), key) == InCall(s, key);
    if OutsideStep(step) {
      OutsideParts(c, s, step);
    } else if PoolStep(step) {
      PoolParts(c, s, step);
    } else {
      WorkerMoves(c, s, step);
    }
    hide Next, Enabled, SentFor, InCall;
  }

  lemma {:induction false} ChancesRun(c: Config, s: State, steps: seq<Step>, key: Key)
    requires CallsApart(s) && Run(c, s, steps).Some?
    ensures CallsApart(Run(c, s, steps).value)
    ensures Chances(Run(c, s, steps).value, key) <= Chances(s, key) + Notices(steps, key)
  {
    hide Enabled, Next, CallsApart, Chances;
    if steps == [] {
    } else {
      var front, last := steps[..|steps| - 1], steps[|steps| - 1];
      ChancesRun(c, s, front, key);
      CallsApartStep(c, Run(c, s, front).value, last);
      ChancesStep(c, Run(c, s, front).value, last, key);
    }
  }

  /** In every run a resource is sent at most once for each of its events. */
  lemma SendsAreNoticed(c: Config, reconcilers: nat, bound: seq<bool>, sets: seq<NodeSet>, steps: seq<Step>, key: Key)
    requires Run(c, Init(reconcilers, bound, sets), steps).Some?
    ensures |SentFor(Run(c, Init(reconcilers, bound, sets), steps).value, key)| <= Notices(steps, key)
  {
    var start := Init(reconcilers, bound, sets);
    assert SentFor(start, key) == {};
    assert !InCall(start, key);
    assert CallsApart(start);
    hide Run, Init, InCall;
    ChancesRun(c, start, steps, key);
  }

  // ---------------------------------------------------------------- where resources come from

  predicate OfRow(s: State, keyRows: map<Key, nat>, key: Key, cr: CR) {
    key in keyRows && IsRow(s.rows, cr.taskId, cr.index, keyRows[key])
  }

  /** Every copy of a resource names the row it was created for. */
  predicate Traced(s: State, keyRows: map<Key, nat>) {
    && s.used == keyRows.Keys
    && (forall k | k in s.crs :: OfRow(s, keyRows, k, s.crs[k]))
    && (forall i | 0 <= i < |s.calls| && Carries(s.calls[i]) :: OfRow(s, keyRows, s.calls[i].key, s.calls[i].cr))
    && (forall t | 0 <= t < |s.sends| :: OfRow(s, keyRows, s.sends[t].key, s.sends[t].cr))
  }

  lemma OfRowStays(s: State, t: State, before: map<Key, nat>, after: map<Key, nat>, key: Key, cr: CR)
    requires OfRow(s, before, key, cr) && RowsGrow(s.rows, t.rows)
    requires forall k | k in before :: k in after && after[k] == before[k]
    ensures OfRow(t, after, key, cr)
  {
  }

  function MoreKeyRows(keyRows: map<Key, nat>, step: Step): map<Key, nat> {
    if step.CreateCR? then keyRows[step.key := step.row] else keyRows
  }

  lemma UsedMoves(c: Config, s: State, step: Step)
    requires Enabled(c, s, step)
    ensures Next(c, s, step).used == if step.CreateCR? then s.used + {step.key} else s.used
    ensures step.CreateCR? ==> step.key !in s.used && step.row < |s.rows|
  {
    if OutsideStep(step) {
      OutsideParts(c, s, step);
    } else if CallStep(step) {
      CallMoves(c, s, step);
    } else if PoolStep(step) {
      PoolParts(c, s, step);
    } else {
      WorkerMoves(c, s, step);
    }
    hide Next, Enabled;
  }

  lemma TracedStep(c: Config, s: State, step: Step, keyRows: map<Key, nat>)
    requires Traced(s, keyRows) && DistinctRows(s.rows) && Enabled(c, s, step)
    ensures Traced(Next(c, s, step), MoreKeyRows(keyRows, step))
  {
    var t, more := Next(c, s, step), MoreKeyRows(keyRows, step);
    UsedMoves(c, s, step);
    RowsStep(c, s, step);
    forall key, cr | OfRow(s, keyRows, key, cr)
      ensures OfRow(t, more, key, cr)
    {
      OfRowStays(s, t, keyRows, more, key, cr);
    }
    TracedResources(c, s, step, keyRows);
    TracedCalls(c, s, step, keyRows);
    SendsMove(c, s, step);
    hide Next, Enabled, OfRow, DistinctRows, RowsGrow;
  }

  lemma TracedResources(c: Config, s: State, step: Step, keyRows: map<Key, nat>)
    requires Traced(s, keyRows) && DistinctRows(s.rows) && Enabled(c, s, step)
    ensures forall k | k in Next(c, s, step).crs ::
              OfRow(Next(c, s, step), MoreKeyRows(keyRows, step), k, Next(c, s, step).crs[k])
  {
    UsedMoves(c, s, step);
    RowsStep(c, s, step);
    ResourcesMove(c, s, step);
    hide Next, Enabled, DistinctRows;
  }

  lemma TracedCalls(c: Config, s: State, step: Step, keyRows: map<Key, nat>)
    requires Traced(s, keyRows) && DistinctRows(s.rows) && Enabled(c, s, step)
    ensures var t := Next(c, s, step);
            forall i | 0 <= i < |t.calls| && Carries(t.calls[i]) ::
              OfRow(t, MoreKeyRows(keyRows, step), t.calls[i].key, t.calls[i].cr)
  {
    var t, more := Next(c, s, step), MoreKeyRows(keyRows, step);
    UsedMoves(c, s, step);
    RowsStep(c, s, step);
    CallsMove(c, s, step);
    forall i | 0 <= i < |t.calls| && Carries(t.calls[i])
      ensures OfRow(t, more, t.calls[i].key, t.calls[i].cr)
    {
      CopyMoves(c, s, step, i);
      OfRowStays(s, t, keyRows, more, t.calls[i].key, t.calls[i].cr);
    }
    hide Next, Enabled, DistinctRows;
  }

  lemma {:induction false} TracedRun(c: Config, s: State, steps: seq<Step>)
    requires Safe(c, s) && Traced(s, map[]) && Run(c, s, steps).Some?
    ensures Traced(Run(c, s, steps).value, KeyRows(steps))
  {
    hide Enabled, Next, Safe, Traced;
    if steps == [] {
    } else {
      var front, last := steps[..|steps| - 1], steps[|steps| - 1];
      TracedRun(c, s, front);
      SafeRun(c, s, front);
      var t := Run(c, s, front).value;
      assert DistinctRows(t.rows) by {
        SafeParts(c, t);
      }
      TracedStep(c, t, last, KeyRows(front));
    }
  }

  // ---------------------------------------------------------------- one resource, one event: no rival

  lemma TwoElements<T>(xs: set<T>, a: T, b: T)
    requires a in xs && b in xs && a != b
    ensures |xs| >= 2
  {
    assert xs == {a} + ({b} + (xs - {a} - {b}));
  }

  /** Two tasks sent are for different rows, when no row has two resources and none of these two events. */
  lemma SendsApart(s: State, steps: seq<Step>, t: nat, u: nat)
    requires Traced(s, KeyRows(steps)) && DistinctRows(s.rows) && Limited(steps, 1, 1)
    requires (forall key :: |SentFor(s, key)| <= Notices(steps, key))
    requires t < |s.sends| && u < |s.sends| && t != u
    ensures s.sends[t].cr.taskId != s.sends[u].cr.taskId || s.sends[t].cr.index != s.sends[u].cr.index
  {
    var a, b, rows := s.sends[t].key, s.sends[u].key, KeyRows(steps);
    assert OfRow(s, rows, a, s.sends[t].cr) && OfRow(s, rows, b, s.sends[u].cr);
    assert Notices(steps, a) <= 1 && |ResourcesOf(steps, rows[a])| <= 1;
    if a == b {
      TwoElements(SentFor(s, a), t, u);
    } else if rows[a] == rows[b] {
      TwoElements(ResourcesOf(steps, rows[a]), a, b);
    }
    hide Notices, KeyRows, ResourcesOf, SentFor;
  }

  lemma NobodyElse(c: Config, s: State, steps: seq<Step>, w: nat)
    requires Traced(s, KeyRows(steps)) && DistinctRows(s.rows) && Limited(steps, 1, 1) && PoolSafe(c, s)
    requires (forall key :: |SentFor(s, key)| <= Notices(steps, key))
    requires TasksSent(s) && w < |s.pool.workers|
    ensures Alone(s, w)
  {
    forall v | 0 <= v < |s.pool.workers| && v != w
      ensures var mine, other := s.sends[s.pool.workers[w].task].cr, s.sends[s.pool.workers[v].task].cr;
              other.taskId != mine.taskId || other.index != mine.index
    {
      OneWorkerPerTask(c.limits, s.pool, if v < w then v else w, if v < w then w else v);
      SendsApart(s, steps, s.pool.workers[v].task, s.pool.workers[w].task);
    }
    hide Inv, Limited, Traced, DistinctRows;
  }

  /** The task of the worker has exactly one row, and that says SUCCESS. */
  ghost predicate RowSaysSuccess(s: State, w: nat)
    requires TasksSent(s) && w < |s.pool.workers|
  {
    var cr := s.sends[s.pool.workers[w].task].cr;
    exists r | 0 <= r < |s.rows| :: Lookup(s.rows, cr.taskId, cr.index) == [r] && s.rows[r].status == "SUCCESS"
  }

  /** After the run, some worker has succeeded and the row of its task does not say so. */
  ghost predicate LosesIn(c: Config, s: State, steps: seq<Step>, w: nat) {
    && Run(c, s, steps).Some?
    && var t := Run(c, s, steps).value;
       TasksSent(t) && w < |t.pool.workers| && Succeeds(t.pool.workers[w].stage) && !RowSaysSuccess(t, w)
  }

  lemma FromStart(c: Config, reconcilers: nat, bound: seq<bool>, sets: seq<NodeSet>, steps: seq<Step>)
    requires Run(c, Init(reconcilers, bound, sets), steps).Some?
    ensures var s := Run(c, Init(reconcilers, bound, sets), steps).value;
            Reachable(c, s) && DistinctRows(s.rows) && PoolSafe(c, s) && Traced(s, KeyRows(steps))
  {
    var start := Init(reconcilers, bound, sets);
    assert Traced(start, map[]);
    hide Run, Init, Safe, Traced, DistinctRows, PoolSafe;
    SafeInit(c, reconcilers, bound, sets);
    SafeRun(c, start, steps);
    SafeParts(c, Run(c, start, steps).value);
    TracedRun(c, start, steps);
  }

  /**
   * Done stays stored: in every run in which no row has two resources and no resource two events, the
   * task of every worker that has reported success has exactly one row, and that still says SUCCESS.
   */
  lemma DoneStaysStored(c: Config, reconcilers: nat, bound: seq<bool>, sets: seq<NodeSet>, steps: seq<Step>, w: nat)
    requires Run(c, Init(reconcilers, bound, sets), steps).Some? && Limited(steps, 1, 1)
    requires var s := Run(c, Init(reconcilers, bound, sets), steps).value;
             w < |s.pool.workers| && Succeeds(s.pool.workers[w].stage)
    ensures var s := Run(c, Init(reconcilers, bound, sets), steps).value;
            TasksSent(s) && RowSaysSuccess(s, w)
  {
    hide Run, Init, Limited, Traced, DistinctRows, PoolSafe, Reachable, Lookup, Alone;
    var s := Run(c, Init(reconcilers, bound, sets), steps).value;
    FromStart(c, reconcilers, bound, sets, steps);
    DoneIsReal(c, s, w);
    forall key
      ensures |SentFor(s, key)| <= Notices(steps, key)
    {
      SendsAreNoticed(c, reconcilers, bound, sets, steps, key);
    }
    NobodyElse(c, s, steps, w);
  }

  lemma SafeParts(c: Config, s: State)
    requires Safe(c, s)
    ensures DistinctRows(s.rows) && PoolSafe(c, s)
  {
    hide PoolSafe, NothingLost, StorageSeen, WorkersOk, SuccessStored, StatusTrue;
  }
}
