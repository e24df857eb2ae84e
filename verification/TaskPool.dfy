/**
 * The bounded task queue, the dispatchers that drain it and the semaphore that limits the restore
 * workers (internal/controller/controller/restoretask_controller.go: StartWorker, the two channels
 * of NewRestoreTaskReconciler, the dispatchers of NewRestoreReconcilerCtrl).
 * A task is known by the number of its send: 0, 1, 2, ...
 */
module TaskPool {
  import opened Folds
  import opened Polling

  /** Concurrency and MaxTasks as configured; maxPolls is how many ticks the select may choose
      before it chooses the timeout. */
  datatype Limits = Limits(concurrency: nat, maxTasks: nat, maxPolls: nat)

  /** A dispatcher is bound when the context it watches can be cancelled. */
  datatype Dispatcher = Idle(bound: bool) | Holding(task: nat, bound: bool) | Exited

  datatype Stage =
    | Querying
    | Restoring(row: nat)
    | PollingRow(row: nat)
    | Reporting(done: bool)
    | Reported(done: bool)
    | Released(done: bool)

  datatype Worker = Worker(task: nat, stage: Stage, turns: seq<Turn>)

  datatype Pool = Pool(sent: nat, queue: seq<nat>, dispatchers: seq<Dispatcher>, sem: nat, workers: seq<Worker>)

  // ---------------------------------------------------------------- steps

  function Start(bound: seq<bool>): Pool {
    Pool(0, [], seq(|bound|, i requires 0 <= i < |bound| => Idle(bound[i])), 0, [])
  }

  /** A send into the buffer, while there is room. */
  function Send(p: Pool): Pool {
    p.(sent := p.sent + 1, queue := p.queue + [p.sent])
  }

  /** A send straight to a dispatcher that is waiting on the empty channel. */
  function Handoff(p: Pool, d: nat): Pool
    requires d < |p.dispatchers| && p.dispatchers[d].Idle?
  {
    p.(sent := p.sent + 1, dispatchers := p.dispatchers[d := Holding(p.sent, p.dispatchers[d].bound)])
  }

  function Receive(p: Pool, d: nat): Pool
    requires d < |p.dispatchers| && p.dispatchers[d].Idle? && p.queue != []
  {
    p.(queue := p.queue[1..], dispatchers := p.dispatchers[d := Holding(p.queue[0], p.dispatchers[d].bound)])
  }

  /** The select of a waiting dispatcher sees its context cancelled. */
  function Exit(p: Pool, d: nat): Pool
    requires d < |p.dispatchers| && p.dispatchers[d].Idle?
  {
    p.(dispatchers := p.dispatchers[d := Exited])
  }

  /** The semaphore is taken and the worker started. */
  function Acquire(p: Pool, d: nat): Pool
    requires d < |p.dispatchers| && p.dispatchers[d].Holding?
  {
    p.(dispatchers := p.dispatchers[d := Idle(p.dispatchers[d].bound)],
       sem := p.sem + 1,
       workers := p.workers + [Worker(p.dispatchers[d].task, Querying, [])])
  }

  function Advance(p: Pool, w: nat, stage: Stage, turns: seq<Turn>): Pool
    requires w < |p.workers|
  {
    p.(workers := p.workers[w := Worker(p.workers[w].task, stage, turns)])
  }

  /** The deferred receive that frees the worker's slot. */
  function Release(p: Pool, w: nat): Pool
    requires w < |p.workers| && p.workers[w].stage.Reported? && p.sem > 0
  {
    Advance(p, w, Released(p.workers[w].stage.done), p.workers[w].turns).(sem := p.sem - 1)
  }

  // ---------------------------------------------------------------- where each task is

  ghost function HeldTask(d: Dispatcher): multiset<nat> {
    if d.Holding? then multiset{d.task} else multiset{}
  }

  ghost function BusyTask(w: Worker): multiset<nat> {
    if w.stage.Released? then multiset{} else multiset{w.task}
  }

  ghost function FinishedTask(w: Worker): multiset<nat> {
    if w.stage.Released? then multiset{w.task} else multiset{}
  }

  ghost function Held(p: Pool): multiset<nat> {
    Gather(HeldTask, p.dispatchers)
  }

  ghost function Busy(p: Pool): multiset<nat> {
    Gather(BusyTask, p.workers)
  }

  ghost function Finished(p: Pool): multiset<nat> {
    Gather(FinishedTask, p.workers)
  }

  /** Bounds, a semaphore that counts the running workers, and every sent task in one place. */
  ghost predicate Inv(l: Limits, p: Pool) {
    && |p.queue| <= l.maxTasks
    && p.sem == |Busy(p)| <= l.concurrency
    && multiset(p.queue) + Held(p) + Busy(p) + Finished(p) == Upto(p.sent)
  }

  lemma {:induction false} StartHoldsNothing(bound: seq<bool>)
    ensures Held(Start(bound)) == multiset{}
  {
    if bound == [] {
    } else {
      var front := bound[..|bound| - 1];
      assert Start(bound).dispatchers[..|front|] == Start(front).dispatchers;
      StartHoldsNothing(front);
    }
  }

  lemma InvStart(l: Limits, bound: seq<bool>)
    ensures Inv(l, Start(bound))
  {
    StartHoldsNothing(bound);
  }

  lemma InvSend(l: Limits, p: Pool)
    requires Inv(l, p) && |p.queue| < l.maxTasks
    ensures Inv(l, Send(p))
  {
    hide Gather, Upto;
    UptoStep(p.sent);
    assert multiset(p.queue + [p.sent]) == multiset(p.queue) + multiset{p.sent};
    assert Held(Send(p)) == Held(p) && Busy(Send(p)) == Busy(p) && Finished(Send(p)) == Finished(p);
  }

  lemma InvHandoff(l: Limits, p: Pool, d: nat)
    requires Inv(l, p) && d < |p.dispatchers| && p.dispatchers[d].Idle?
    ensures Inv(l, Handoff(p, d))
  {
    hide Gather, Upto;
    UptoStep(p.sent);
    GatherUpdate(HeldTask, p.dispatchers, d, Holding(p.sent, p.dispatchers[d].bound));
    assert Held(Handoff(p, d)) == Held(p) + multiset{p.sent};
    assert Busy(Handoff(p, d)) == Busy(p) && Finished(Handoff(p, d)) == Finished(p);
  }

  lemma InvReceive(l: Limits, p: Pool, d: nat)
    requires Inv(l, p) && d < |p.dispatchers| && p.dispatchers[d].Idle? && p.queue != []
    ensures Inv(l, Receive(p, d))
  {
    hide Gather, Upto;
    var q := Receive(p, d);
    GatherUpdate(HeldTask, p.dispatchers, d, Holding(p.queue[0], p.dispatchers[d].bound));
    assert Held(q) == Held(p) + multiset{p.queue[0]};
    assert p.queue == [p.queue[0]] + p.queue[1..];
    assert multiset(p.queue) == multiset{p.queue[0]} + multiset(q.queue);
    assert Busy(q) == Busy(p) && Finished(q) == Finished(p);
  }

  lemma InvExit(l: Limits, p: Pool, d: nat)
    requires Inv(l, p) && d < |p.dispatchers| && p.dispatchers[d].Idle?
    ensures Inv(l, Exit(p, d))
  {
    GatherUnchanged(HeldTask, p.dispatchers, d, Exited);
  }

  lemma InvAcquire(l: Limits, p: Pool, d: nat)
    requires Inv(l, p) && d < |p.dispatchers| && p.dispatchers[d].Holding? && p.sem < l.concurrency
    ensures Inv(l, Acquire(p, d))
  {
    hide Gather, Upto;
    var t, q := p.dispatchers[d].task, Acquire(p, d);
    GatherUpdate(HeldTask, p.dispatchers, d, Idle(p.dispatchers[d].bound));
    GatherAppend(BusyTask, p.workers, Worker(t, Querying, []));
    GatherAppend(FinishedTask, p.workers, Worker(t, Querying, []));
    assert Held(q) + multiset{t} == Held(p);
    assert Busy(q) == Busy(p) + multiset{t} && Finished(q) == Finished(p);
  }

  lemma InvAdvance(l: Limits, p: Pool, w: nat, stage: Stage, turns: seq<Turn>)
    requires Inv(l, p) && w < |p.workers| && !p.workers[w].stage.Released? && !stage.Released?
    ensures Inv(l, Advance(p, w, stage, turns))
  {
    var next, q := Worker(p.workers[w].task, stage, turns), Advance(p, w, stage, turns);
    GatherUnchanged(BusyTask, p.workers, w, next);
    GatherUnchanged(FinishedTask, p.workers, w, next);
    assert Busy(q) == Busy(p) && Finished(q) == Finished(p);
  }

  lemma InvRelease(l: Limits, p: Pool, w: nat)
    requires Inv(l, p) && w < |p.workers| && p.workers[w].stage.Reported?
    ensures p.sem > 0 && Inv(l, Release(p, w))
  {
    hide Gather, Upto;
    GatherHas(BusyTask, p.workers, p.workers[w].task);
    var t := p.workers[w].task;
    assert t in BusyTask(p.workers[w]);
    assert p.sem > 0;
    var q := Release(p, w);
    GatherUpdate(BusyTask, p.workers, w, q.workers[w]);
    GatherUpdate(FinishedTask, p.workers, w, q.workers[w]);
    assert Busy(q) + multiset{t} == Busy(p) && Finished(q) == Finished(p) + multiset{t};
  }

  /** Every task ever sent is queued, held, running or finished, and only one of these, once. */
  lemma EachTaskInOnePlace(l: Limits, p: Pool, t: nat)
    requires Inv(l, p)
    ensures multiset(p.queue)[t] + Held(p)[t] + Busy(p)[t] + Finished(p)[t] == if t < p.sent then 1 else 0
  {
    assert (multiset(p.queue) + Held(p) + Busy(p) + Finished(p))[t] == Upto(p.sent)[t];
  }

  /** What the four places are: entries of the queue, dispatchers, and workers before and after
      they free their slot. No more tasks are held than there are dispatchers. */
  lemma PlacesAre(p: Pool, t: nat)
    ensures t in multiset(p.queue) <==> t in p.queue
    ensures t in Held(p) <==> exists d | 0 <= d < |p.dispatchers| :: t in HeldTask(p.dispatchers[d])
    ensures t in Busy(p) <==> exists w | 0 <= w < |p.workers| :: t in BusyTask(p.workers[w])
    ensures t in Finished(p) <==> exists w | 0 <= w < |p.workers| :: t in FinishedTask(p.workers[w])
    ensures |Held(p)| <= |p.dispatchers|
  {
    GatherHas(HeldTask, p.dispatchers, t);
    GatherHas(BusyTask, p.workers, t);
    GatherHas(FinishedTask, p.workers, t);
    GatherIsSmall(HeldTask, p.dispatchers);
  }

  /** A task has at most one worker, so two workers never restore the same send. */
  lemma OneWorkerPerTask(l: Limits, p: Pool, v: nat, w: nat)
    requires Inv(l, p) && v < w < |p.workers|
    ensures p.workers[v].task != p.workers[w].task
  {
    TwoWorkersCountTwice(p.workers, v, w);
    EachTaskInOnePlace(l, p, p.workers[v].task);
  }

  ghost function Started(workers: seq<Worker>, t: nat): nat {
    Gather(BusyTask, workers)[t] + Gather(FinishedTask, workers)[t]
  }

  lemma StartedStep(workers: seq<Worker>, t: nat)
    requires workers != []
    ensures var n := |workers| - 1;
            Started(workers, t) == Started(workers[..n], t) + if workers[n].task == t then 1 else 0
  {
  }

  lemma {:induction false} TwoWorkersCountTwice(workers: seq<Worker>, v: nat, w: nat)
    requires v < w < |workers|
    ensures workers[v].task == workers[w].task ==> Started(workers, workers[v].task) >= 2
  {
    hide Started;
    var front, t := workers[..|workers| - 1], workers[v].task;
    StartedStep(workers, t);
    if w < |front| {
      TwoWorkersCountTwice(front, v, w);
    } else {
      WorkerCounts(front, v);
    }
  }

  lemma {:induction false} WorkerCounts(workers: seq<Worker>, v: nat)
    requires v < |workers|
    ensures Started(workers, workers[v].task) >= 1
  {
    hide Started;
    StartedStep(workers, workers[v].task);
    if v < |workers| - 1 {
      WorkerCounts(workers[..|workers| - 1], v);
    }
  }

  // ---------------------------------------------------------------- progress

  function StageWeight(l: Limits, w: Worker): nat {
    match w.stage
    case Querying => l.maxPolls + 6
    case Restoring(_) => l.maxPolls + 5
    case PollingRow(_) => (if |w.turns| <= l.maxPolls then l.maxPolls - |w.turns| else 0) + 4
    case Reporting(_) => 3
    case Reported(_) => 2
    case Released(_) => 0
  }

  function DispatcherWeight(l: Limits, d: Dispatcher): nat {
    match d
    case Idle(bound) => if bound then 1 else 0
    case Holding(_, bound) => l.maxPolls + 8 + if bound then 1 else 0
    case Exited => 0
  }

  function WorkerWeights(l: Limits): Worker -> nat {
    w => StageWeight(l, w)
  }

  function DispatcherWeights(l: Limits): Dispatcher -> nat {
    d => DispatcherWeight(l, d)
  }

  function QueueWeights(l: Limits): nat -> nat {
    t => l.maxPolls + 9
  }

  /** What one blocked send is worth: a little more than a queued task. */
  function SenderWeight(l: Limits): nat {
    l.maxPolls + 10
  }

  /** Work left in the pool. */
  function Work(l: Limits, p: Pool): nat {
    Sum(QueueWeights(l), p.queue) + Sum(DispatcherWeights(l), p.dispatchers) + Sum(WorkerWeights(l), p.workers)
  }

  lemma SendWork(l: Limits, p: Pool)
    ensures Work(l, Send(p)) == Work(l, p) + SenderWeight(l) - 1
  {
    SumAppend(QueueWeights(l), p.queue, p.sent);
  }

  lemma HandoffWork(l: Limits, p: Pool, d: nat)
    requires d < |p.dispatchers| && p.dispatchers[d].Idle?
    ensures Work(l, Handoff(p, d)) < Work(l, p) + SenderWeight(l)
  {
    SumUpdate(DispatcherWeights(l), p.dispatchers, d, Holding(p.sent, p.dispatchers[d].bound));
  }

  lemma {:induction false} SumOfTail<T>(weight: T -> nat, xs: seq<T>)
    requires xs != []
    ensures Sum(weight, xs) == weight(xs[0]) + Sum(weight, xs[1..])
  {
    if |xs| == 1 {
    } else {
      var front := xs[..|xs| - 1];
      SumOfTail(weight, front);
      assert front[1..] == xs[1..][..|xs| - 2];
    }
  }

  lemma ReceiveWork(l: Limits, p: Pool, d: nat)
    requires d < |p.dispatchers| && p.dispatchers[d].Idle? && p.queue != []
    ensures Work(l, Receive(p, d)) < Work(l, p)
  {
    SumOfTail(QueueWeights(l), p.queue);
    SumUpdate(DispatcherWeights(l), p.dispatchers, d, Holding(p.queue[0], p.dispatchers[d].bound));
  }

  lemma ExitWork(l: Limits, p: Pool, d: nat)
    requires d < |p.dispatchers| && p.dispatchers[d] == Idle(true)
    ensures Work(l, Exit(p, d)) < Work(l, p)
  {
    SumUpdate(DispatcherWeights(l), p.dispatchers, d, Exited);
  }

  lemma AcquireWork(l: Limits, p: Pool, d: nat)
    requires d < |p.dispatchers| && p.dispatchers[d].Holding?
    ensures Work(l, Acquire(p, d)) < Work(l, p)
  {
    SumUpdate(DispatcherWeights(l), p.dispatchers, d, Idle(p.dispatchers[d].bound));
    SumAppend(WorkerWeights(l), p.workers, Worker(p.dispatchers[d].task, Querying, []));
  }

  lemma AdvanceWork(l: Limits, p: Pool, w: nat, stage: Stage, turns: seq<Turn>)
    requires w < |p.workers|
    requires StageWeight(l, Worker(p.workers[w].task, stage, turns)) < StageWeight(l, p.workers[w])
    ensures Work(l, Advance(p, w, stage, turns)) < Work(l, p)
  {
    SumUpdate(WorkerWeights(l), p.workers, w, Worker(p.workers[w].task, stage, turns));
  }

  /** Someone is queued, held by a dispatcher, or running. */
  predicate Occupied(p: Pool) {
    || p.queue != []
    || (exists d | 0 <= d < |p.dispatchers| :: p.dispatchers[d].Holding?)
    || (exists w | 0 <= w < |p.workers| :: !p.workers[w].stage.Released?)
  }

  lemma NobodyRunning(l: Limits, p: Pool)
    requires Inv(l, p) && forall w | 0 <= w < |p.workers| :: p.workers[w].stage.Released?
    ensures p.sem == 0
  {
    if t: nat :| t in Busy(p) {
      GatherHas(BusyTask, p.workers, t);
      assert false;
    }
    assert Busy(p) == multiset{};
  }

  // ---------------------------------------------------------------- the code

  /** The two channels, the dispatchers and the workers as the running program changes them. */
  class RestorePool {
    const limits: Limits
    var sent: nat
    var taskQueue: seq<nat>
    var dispatchers: seq<Dispatcher>
    var sem: nat
    var workers: seq<Worker>

    ghost function View(): Pool
      reads this
    {
      Pool(sent, taskQueue, dispatchers, sem, workers)
    }

    ghost predicate Valid()
      reads this
    {
      Inv(limits, View())
    }

    constructor (limits: Limits, bound: seq<bool>)
      ensures Valid() && this.limits == limits && View() == Start(bound)
    {
      this.limits := limits;
      sent, taskQueue, sem, workers := 0, [], 0, [];
      dispatchers := seq(|bound|, i requires 0 <= i < |bound| => Idle(bound[i]));
      new;
      InvStart(limits, bound);
    }

    /** taskQueue <- task; false while the buffer is full and the sender stays blocked. */
    method Enqueue() returns (done: bool)
      requires Valid()
      modifies this
      ensures Valid() && done == (|old(taskQueue)| < limits.maxTasks)
      ensures View() == if done then Send(old(View())) else old(View())
      ensures done ==> taskQueue == old(taskQueue) + [old(sent)]
    {
      hide Inv;
      done := |taskQueue| < limits.maxTasks;
      if done {
        InvSend(limits, View());
        taskQueue := taskQueue + [sent];
        sent := sent + 1;
      }
    }

    /** One turn of a dispatcher's select, its context being cancelled or not. */
    method Dispatch(d: nat, cancelled: bool) returns (acted: bool)
      requires Valid() && d < |dispatchers| && dispatchers[d].Idle?
      modifies this
      ensures Valid() && acted == (old(taskQueue) != [] || cancelled)
      ensures View() == if cancelled then Exit(old(View()), d)
                        else if acted then Receive(old(View()), d) else old(View())
      ensures acted && !cancelled ==>
                && [dispatchers[d].task] + taskQueue == old(taskQueue)
                && dispatchers == old(dispatchers)[d := Holding(old(taskQueue)[0], old(dispatchers)[d].bound)]
    {
      hide Inv;
      acted := true;
      if cancelled {
        InvExit(limits, View(), d);
        dispatchers := dispatchers[d := Exited];
      } else if taskQueue != [] {
        InvReceive(limits, View(), d);
        dispatchers := dispatchers[d := Holding(taskQueue[0], dispatchers[d].bound)];
        taskQueue := taskQueue[1..];
      } else {
        acted := false;
      }
    }

    /** sem <- struct{}{} and the go statement behind it. */
    method StartTask(d: nat) returns (started: bool)
      requires Valid() && d < |dispatchers| && dispatchers[d].Holding?
      modifies this
      ensures Valid() && started == (old(sem) < limits.concurrency)
      ensures View() == if started then Acquire(old(View()), d) else old(View())
    {
      hide Inv;
      started := sem < limits.concurrency;
      if started {
        InvAcquire(limits, View(), d);
        sem := sem + 1;
        workers := workers + [Worker(dispatchers[d].task, Querying, [])];
        dispatchers := dispatchers[d := Idle(dispatchers[d].bound)];
      }
    }

    method FinishTask(w: nat)
      requires Valid() && w < |workers| && workers[w].stage.Reported?
      modifies this
      ensures Valid() && old(sem) > 0 && View() == Release(old(View()), w)
    {
      hide Inv;
      InvRelease(limits, View(), w);
      workers := workers[w := Worker(workers[w].task, Released(workers[w].stage.done), workers[w].turns)];
      sem := sem - 1;
    }
  }
}
