/** What every run of the annotation state machine keeps, with any number of workers. */
module AnnotationRuns {
  import opened Wrappers
  import opened Folds
  import opened Annotations

  // ---------------------------------------------------------------- where each task is

  ghost function SendingTask(call: Call): multiset<nat> {
    if call.Sending? then multiset{call.task} else multiset{}
  }

  ghost function HeldTask(w: Worker): multiset<nat> {
    if w.Waiting? then multiset{} else multiset{w.task}
  }

  /** Every started task is about to be sent, queued, with a worker or finished, once. */
  ghost predicate Conserved(s: State) {
    Gather(SendingTask, s.calls) + multiset(s.queue) + Gather(HeldTask, s.workers) + multiset(s.finished)
    == Upto(|s.started|)
  }

  lemma {:induction false} NobodySending(calls: seq<Call>)
    requires forall i | 0 <= i < |calls| :: calls[i].Free?
    ensures Gather(SendingTask, calls) == multiset{}
  {
    if calls == [] {
    } else {
      NobodySending(calls[..|calls| - 1]);
    }
  }

  lemma {:induction false} NobodyBusy(workers: seq<Worker>)
    requires forall w | 0 <= w < |workers| :: workers[w].Waiting?
    ensures Gather(HeldTask, workers) == multiset{}
  {
    if workers == [] {
    } else {
      NobodyBusy(workers[..|workers| - 1]);
    }
  }

  lemma ConservedCall(s: State, t: State, i: nat, call: Call)
    requires Conserved(s) && i < |s.calls| && t.calls == s.calls[i := call]
    requires t.workers == s.workers && t.finished == s.finished
    requires SendingTask(call) + multiset(t.queue) + Upto(|s.started|)
          == SendingTask(s.calls[i]) + multiset(s.queue) + Upto(|t.started|)
    ensures Conserved(t)
  {
    hide Gather, Upto, SendingTask;
    GatherUpdate(SendingTask, s.calls, i, call);
    var others := Gather(HeldTask, s.workers) + multiset(s.finished);
    var was, now := Gather(SendingTask, s.calls), Gather(SendingTask, t.calls);
    assert was + multiset(s.queue) + others == Upto(|s.started|);
    Balance(was, now, SendingTask(s.calls[i]), SendingTask(call), multiset(s.queue), multiset(t.queue), others,
            Upto(|s.started|), Upto(|t.started|));
    assert now + multiset(t.queue) + others
        == now + multiset(t.queue) + Gather(HeldTask, t.workers) + multiset(t.finished);
  }

  lemma ConservedWorker(s: State, t: State, w: nat, worker: Worker)
    requires Conserved(s) && w < |s.workers| && t.workers == s.workers[w := worker]
    requires t.calls == s.calls && |t.started| == |s.started|
    requires HeldTask(worker) + (multiset(t.queue) + multiset(t.finished))
          == HeldTask(s.workers[w]) + (multiset(s.queue) + multiset(s.finished))
    ensures Conserved(t)
  {
    hide Gather, Upto, HeldTask;
    GatherUpdate(HeldTask, s.workers, w, worker);
    var was, now := Gather(HeldTask, s.workers), Gather(HeldTask, t.workers);
    var sending, total := Gather(SendingTask, s.calls), Upto(|s.started|);
    var before, after := multiset(s.queue) + multiset(s.finished), multiset(t.queue) + multiset(t.finished);
    assert was + before + sending == total;
    assert HeldTask(worker) + after + total == HeldTask(s.workers[w]) + before + total;
    Balance(was, now, HeldTask(s.workers[w]), HeldTask(worker), before, after, sending, total, total);
    assert now + after + sending == sending + multiset(t.queue) + now + multiset(t.finished);
  }

  predicate CallStep(step: Step) {
    step.Take? || step.Read? || step.Patch? || step.Send?
  }

  predicate WorkerStep(step: Step) {
    step.Receive? || step.Check? || step.Report?
  }

  /** What a step of a call does to queue and tasks. */
  lemma CallParts(c: Config, s: State, step: Step)
    requires Enabled(c, s, step) && CallStep(step)
    ensures var t, i := Next(c, s, step), step.call;
            && i < |s.calls| == |t.calls| && t.calls == s.calls[i := t.calls[i]]
            && t.workers == s.workers && t.finished == s.finished
            && (step.Send? ==> s.calls[i].Sending? && !t.calls[i].Sending?
                               && t.queue == s.queue + [s.calls[i].task] && t.started == s.started)
            && (!step.Send? ==> t.queue == s.queue && !s.calls[i].Sending?)
            && (t.calls[i].Sending? ==> t.calls[i].task == |s.started| && |t.started| == |s.started| + 1)
            && (!t.calls[i].Sending? ==> t.started == s.started)
            && (t.calls[i].Planned? ==> step.Read? && s.calls[i].Taken?)
            && (t.calls[i].Taken? ==> step == Take(i, t.calls[i].key))
  {
    if step.Read? {
      hide Next, Enabled, AfterRead;
      ReadIs(c, s, step);
      ReadParts(s, step.call, step.readOk);
    } else if step.Patch? {
      hide Next, Enabled, AfterPatch;
      PatchIs(c, s, step);
      PatchParts(c, s, step.call, step.patchOk);
    } else {
      hide AfterRead, AfterPatch, AfterCheck, AfterReport, Changed, Requeued, InCall, Bump, FilterCreate, FilterUpdate;
    }
  }

  lemma ReadParts(s: State, i: nat, ok: bool)
    requires i < |s.calls| && s.calls[i].Taken?
    ensures var t := AfterRead(s, i, ok);
            && t.calls == s.calls[i := t.calls[i]] && !t.calls[i].Sending? && !t.calls[i].Taken?
            && t.workers == s.workers && t.finished == s.finished && t.queue == s.queue && t.started == s.started
            && t.objs == s.objs && t.used == s.used
            && (t.calls[i].Planned? ==>
                  t.calls[i].key == s.calls[i].key && Plan(s.objs, s.calls[i].key) == Some(t.calls[i].taskId))
  {
    hide Plan, Bump;
    match Plan(s.objs, s.calls[i].key)
    case None =>
    case Some(_) =>
  }

  lemma PatchParts(c: Config, s: State, i: nat, ok: bool)
    requires i < |s.calls| && s.calls[i].Planned?
    ensures var t := AfterPatch(c, s, i, ok);
            && t.calls == s.calls[i := t.calls[i]] && (t.calls[i].Free? || t.calls[i].Sending?)
            && t.workers == s.workers && t.finished == s.finished && t.queue == s.queue
            && (if t.calls[i].Sending? then t.calls[i].task == |s.started| && |t.started| == |s.started| + 1
                else t.started == s.started)
  {
    hide FilterUpdate, Patched, Bump;
  }

  lemma ConservedSend(s: State, t: State, i: nat, call: Call)
    requires Conserved(s) && i < |s.calls| && t.calls == s.calls[i := call] && s.calls[i].Sending? && !call.Sending?
    requires t.workers == s.workers && t.finished == s.finished && t.started == s.started
    requires t.queue == s.queue + [s.calls[i].task]
    ensures Conserved(t)
  {
    hide Gather, Conserved, Upto;
    assert multiset(t.queue) == multiset(s.queue) + multiset{s.calls[i].task};
    ConservedCall(s, t, i, call);
  }

  lemma ConservedOther(s: State, t: State, i: nat, call: Call)
    requires Conserved(s) && i < |s.calls| && t.calls == s.calls[i := call] && !s.calls[i].Sending?
    requires t.workers == s.workers && t.finished == s.finished && t.queue == s.queue
    requires if call.Sending? then call.task == |s.started| && |t.started| == |s.started| + 1
             else t.started == s.started
    ensures Conserved(t)
  {
    hide Gather, Conserved, Upto;
    if call.Sending? {
      UptoStep(|s.started|);
    }
    ConservedCall(s, t, i, call);
  }

  lemma ConservedCallStep(c: Config, s: State, step: Step)
    requires Conserved(s) && Enabled(c, s, step) && CallStep(step)
    ensures Conserved(Next(c, s, step))
  {
    CallParts(c, s, step);
    var t := Next(c, s, step);
    if step.Send? {
      ConservedSend(s, t, step.call, t.calls[step.call]);
    } else {
      ConservedOther(s, t, step.call, t.calls[step.call]);
    }
    hide *;
  }

  /** What a step of a worker does to queue and tasks. */
  lemma WorkerParts(c: Config, s: State, step: Step)
    requires Enabled(c, s, step) && WorkerStep(step)
    ensures var t, w := Next(c, s, step), step.worker;
            && w < |s.workers| == |t.workers| && t.workers == s.workers[w := t.workers[w]]
            && t.calls == s.calls && t.started == s.started
            && (step.Receive? ==> s.workers[w].Waiting? && s.queue != [] && t.workers[w] == Busy(s.queue[0])
                                  && t.queue == s.queue[1..] && t.finished == s.finished)
            && (!step.Receive? ==> t.queue == s.queue && !s.workers[w].Waiting?)
            && (t.workers[w].Reporting? ==> step.Check?)
            && (!step.Receive? && t.workers[w].Waiting? ==> t.finished == s.finished + [s.workers[w].task])
            && (!step.Receive? && !t.workers[w].Waiting? ==>
                  t.finished == s.finished && t.workers[w].task == s.workers[w].task)
  {
    if step.Report? {
      ReportIs(c, s, step);
      hide Next, Enabled, FilterUpdate, Patched;
    } else if step.Check? {
      CheckIs(c, s, step);
      hide Next, Enabled, Guard;
    } else {
      hide AfterRead, AfterPatch, AfterCheck, AfterReport, Changed, Requeued, InCall;
    }
  }

  lemma ConservedWorkerStep(c: Config, s: State, step: Step)
    requires Conserved(s) && Enabled(c, s, step) && WorkerStep(step)
    ensures Conserved(Next(c, s, step))
  {
    WorkerParts(c, s, step);
    hide Gather, Conserved, Next, Enabled, Upto;
    var t := Next(c, s, step);
    if step.Receive? {
      assert s.queue == [s.queue[0]] + s.queue[1..];
      assert multiset(s.queue) == multiset{s.queue[0]} + multiset(t.queue);
    } else if t.workers[step.worker].Waiting? {
      assert multiset(t.finished) == multiset(s.finished) + multiset{s.workers[step.worker].task};
    }
    ConservedWorker(s, t, step.worker, t.workers[step.worker]);
  }

  /** The other steps leave calls, workers and tasks alone. */
  lemma OutsideParts(c: Config, s: State, step: Step)
    requires Enabled(c, s, step) && !CallStep(step) && !WorkerStep(step)
    ensures var t := Next(c, s, step);
            && t.calls == s.calls && t.workers == s.workers && t.queue == s.queue
            && t.started == s.started && t.finished == s.finished
  {
    hide FilterUpdate, FilterCreate, InCall;
  }

  lemma ConservedStep(c: Config, s: State, step: Step)
    requires Conserved(s) && Enabled(c, s, step)
    ensures Conserved(Next(c, s, step))
  {
    if CallStep(step) {
      ConservedCallStep(c, s, step);
    } else if WorkerStep(step) {
      ConservedWorkerStep(c, s, step);
    } else {
      OutsideParts(c, s, step);
    }
    hide Next, Enabled, Gather, Upto;
  }

  /** A task with a worker exists and is not finished. */
  lemma HeldIsUnfinished(s: State, w: nat)
    requires Conserved(s) && w < |s.workers| && !s.workers[w].Waiting?
    ensures s.workers[w].task < |s.started| && s.workers[w].task !in s.finished
  {
    var n := s.workers[w].task;
    GatherHas(HeldTask, s.workers, n);
    assert n in HeldTask(s.workers[w]);
    hide Gather;
    assert (Gather(SendingTask, s.calls) + multiset(s.queue) + Gather(HeldTask, s.workers) + multiset(s.finished))[n]
        == Upto(|s.started|)[n];
    assert multiset(s.finished)[n] == 0;
  }

  /** Nobody else has the task of a worker. */
  lemma {:induction false} HeldOnce(workers: seq<Worker>, v: nat, w: nat)
    requires v < w < |workers| && !workers[v].Waiting? && !workers[w].Waiting? && workers[v].task == workers[w].task
    ensures Gather(HeldTask, workers)[workers[v].task] >= 2
  {
    var front := workers[..|workers| - 1];
    if w == |front| {
      GatherHas(HeldTask, front, workers[v].task);
      assert workers[v].task in HeldTask(front[v]);
    } else {
      HeldOnce(front, v, w);
    }
  }

  // ---------------------------------------------------------------- task ids

  function IdAt(s: State, k: Key): string
    requires k in s.objs
  {
    AnnOf(s.objs[k]).taskId
  }

  function StateAt(s: State, k: Key): string
    requires k in s.objs
  {
    AnnOf(s.objs[k]).state
  }

  /** A pending object has a task id; ids in use are known; no two objects share one. */
  predicate IdsKnown(s: State) {
    && (forall k | k in s.objs :: StateAt(s, k) == PENDING ==> IdAt(s, k) != "")
    && (forall k | k in s.objs :: IdAt(s, k) != "" ==> IdAt(s, k) in s.used)
    && (forall k, m | k in s.objs && m in s.objs && IdAt(s, k) == IdAt(s, m) != "" :: k == m)
  }

  predicate NotStarted(started: seq<Task>, id: string) {
    forall n | 0 <= n < |started| :: started[n].taskId != id
  }

  /** Started ids are distinct, and one still on an object is on its own, no longer pending. */
  predicate StartedOnce(s: State) {
    && (forall n | 0 <= n < |s.started| :: s.started[n].taskId in s.used && s.started[n].taskId != "")
    && (forall n, m | 0 <= n < m < |s.started| :: s.started[n].taskId != s.started[m].taskId)
    && (forall n, k | 0 <= n < |s.started| && k in s.objs && IdAt(s, k) == s.started[n].taskId ::
          k == s.started[n].key && StateAt(s, k) != PENDING)
  }

  /** Calls have different keys; what they plan to start is known, not started, planned once, and on
      no object but their own. */
  predicate PlansFresh(s: State) {
    && (forall i, j | 0 <= i < j < |s.calls| && s.calls[i] != Free && s.calls[j] != Free ::
          s.calls[i].key != s.calls[j].key)
    && (forall i | 0 <= i < |s.calls| && s.calls[i].Planned? :: PlanFresh(s, s.calls[i].key, s.calls[i].taskId))
    && (forall i, j | 0 <= i < j < |s.calls| && s.calls[i].Planned? && s.calls[j].Planned? ::
          s.calls[i].taskId != s.calls[j].taskId)
  }

  predicate PlanFresh(s: State, key: Key, id: string) {
    && id != "" && id in s.used && NotStarted(s.started, id)
    && forall k | k in s.objs && IdAt(s, k) == id :: k == key
  }

  ghost predicate Good(s: State) {
    Conserved(s) && IdsKnown(s) && StartedOnce(s) && PlansFresh(s)
  }

  lemma QuietIsGood(s: State)
    requires Quiet(s)
    ensures Good(s)
  {
    NobodySending(s.calls);
    NobodyBusy(s.workers);
  }

  /** Objects are the same ones, with the same ids, and no state has become pending. */
  predicate Settles(s: State, t: State) {
    && s.used == t.used
    && forall k | k in t.objs ::
         k in s.objs && IdAt(t, k) == IdAt(s, k) && (StateAt(t, k) == StateAt(s, k) || StateAt(t, k) != PENDING)
  }

  predicate Outside(step: Step) {
    step.Write? || step.Create?
  }

  lemma PatchSettles(objs: Objects, key: Key, seen: string, state: string)
    requires state != PENDING
    ensures forall k | k in Patched(objs, key, seen, state) ::
              && k in objs
              && AnnOf(Patched(objs, key, seen, state)[k]).taskId == AnnOf(objs[k]).taskId
              && (AnnOf(Patched(objs, key, seen, state)[k]).state == AnnOf(objs[k]).state
                  || AnnOf(Patched(objs, key, seen, state)[k]).state == state)
  {
  }

  /** The objects after the patch of a call, and of a worker. */
  lemma PatchedObjects(c: Config, s: State, step: Step)
    requires Enabled(c, s, step) && step.Patch?
    ensures Next(c, s, step).used == s.used
    ensures Next(c, s, step).objs
         == if step.patchOk then Patched(s.objs, s.calls[step.call].key, PENDING, RUNNING) else s.objs
  {
    PatchIs(c, s, step);
    hide Next, Enabled, FilterUpdate, InState, Bump;
  }

  lemma PatchIs(c: Config, s: State, step: Step)
    requires Enabled(c, s, step) && step.Patch?
    ensures step.call < |s.calls| && s.calls[step.call].Planned?
    ensures Next(c, s, step) == AfterPatch(c, s, step.call, step.patchOk)
  {
    hide AfterRead, AfterPatch, AfterCheck, AfterReport, Changed, Requeued, FilterUpdate, FilterCreate, InCall, Bump;
  }

  lemma ReadIs(c: Config, s: State, step: Step)
    requires Enabled(c, s, step) && step.Read?
    ensures step.call < |s.calls| && s.calls[step.call].Taken?
    ensures Next(c, s, step) == AfterRead(s, step.call, step.readOk)
  {
    hide AfterRead, AfterPatch, AfterCheck, AfterReport, Changed, Requeued, FilterUpdate, FilterCreate, InCall, Bump;
  }

  lemma CheckIs(c: Config, s: State, step: Step)
    requires Enabled(c, s, step) && step.Check?
    ensures step.worker < |s.workers| && s.workers[step.worker].Busy? && s.workers[step.worker].task < |s.started|
    ensures Next(c, s, step) == AfterCheck(s, step.worker, step.ok, step.readOk)
  {
    hide AfterRead, AfterPatch, AfterCheck, AfterReport, Changed, Requeued, FilterUpdate, FilterCreate, InCall, Bump;
  }

  lemma ReportedObjects(c: Config, s: State, step: Step)
    requires Enabled(c, s, step) && step.Report?
    ensures Next(c, s, step).used == s.used
    ensures var w := s.workers[step.worker];
            Next(c, s, step).objs
            == if step.patchOk then Patched(s.objs, s.started[w.task].key, w.seen, FinalState(w.ok)) else s.objs
  {
    ReportIs(c, s, step);
    hide Next, Enabled, FilterUpdate, Patched;
  }

  lemma ReportIs(c: Config, s: State, step: Step)
    requires Enabled(c, s, step) && step.Report?
    ensures step.worker < |s.workers| && s.workers[step.worker].Reporting? && s.workers[step.worker].task < |s.started|
    ensures Next(c, s, step) == AfterReport(c, s, step.worker, step.patchOk)
  {
    hide AfterRead, AfterPatch, AfterCheck, AfterReport, Changed, Requeued, FilterUpdate, FilterCreate, InCall, Bump;
  }

  lemma PatchStepsSettle(c: Config, s: State, step: Step)
    requires Enabled(c, s, step) && (step.Patch? || step.Report?)
    ensures Settles(s, Next(c, s, step))
  {
    if step.Patch? {
      PatchedObjects(c, s, step);
      PatchSettles(s.objs, s.calls[step.call].key, PENDING, RUNNING);
    } else {
      ReportedObjects(c, s, step);
      var w := s.workers[step.worker];
      PatchSettles(s.objs, s.started[w.task].key, w.seen, FinalState(w.ok));
    }
    hide Patched, AnnOf, Next, Enabled;
  }

  lemma OthersSettle(c: Config, s: State, step: Step)
    requires Enabled(c, s, step) && !Outside(step)
    ensures Settles(s, Next(c, s, step))
  {
    if step.Patch? || step.Report? {
      PatchStepsSettle(c, s, step);
      hide Next, Enabled, Settles;
    } else if step.SetReady? || step.Delete? {
      hide FilterUpdate;
    } else {
      NothingPatched(c, s, step);
      hide Next, Enabled;
    }
  }

  lemma NothingPatched(c: Config, s: State, step: Step)
    requires Enabled(c, s, step) && !Outside(step) && !step.Patch? && !step.Report? && !step.SetReady? && !step.Delete?
    ensures Next(c, s, step).objs == s.objs && Next(c, s, step).used == s.used
  {
    if step.Read? {
      ReadKeepsObjects(c, s, step);
      hide Next;
    } else if step.Check? {
      CheckKeepsObjects(c, s, step);
      hide Next;
    } else {
      hide AfterRead, AfterPatch, AfterCheck, AfterReport, Changed, Requeued, InCall, FilterCreate, Bump;
    }
  }

  lemma ReadKeepsObjects(c: Config, s: State, step: Step)
    requires Enabled(c, s, step) && step.Read?
    ensures Next(c, s, step).objs == s.objs && Next(c, s, step).used == s.used
  {
    ReadIs(c, s, step);
    hide Next, Enabled, Plan, Bump;
  }

  lemma CheckKeepsObjects(c: Config, s: State, step: Step)
    requires Enabled(c, s, step) && step.Check?
    ensures Next(c, s, step).objs == s.objs && Next(c, s, step).used == s.used
  {
    CheckIs(c, s, step);
    hide Next, Enabled, Guard;
  }

  lemma IdsStep(c: Config, s: State, step: Step)
    requires IdsKnown(s) && Enabled(c, s, step)
    ensures IdsKnown(Next(c, s, step))
  {
    if Outside(step) {
      IdsOutside(c, s, step);
    } else {
      hide Next, Enabled;
      OthersSettle(c, s, step);
    }
    hide Next, Enabled, IdsKnown;
  }

  lemma IdsOutside(c: Config, s: State, step: Step)
    requires IdsKnown(s) && Enabled(c, s, step) && Outside(step)
    ensures IdsKnown(Next(c, s, step))
  {
    hide FilterUpdate, FilterCreate;
  }

  lemma StartedStays(s: State, t: State)
    requires StartedOnce(s) && Settles(s, t) && t.started == s.started
    ensures StartedOnce(t)
  {
  }

  lemma StartedOutside(c: Config, s: State, step: Step)
    requires StartedOnce(s) && Enabled(c, s, step) && Outside(step)
    ensures StartedOnce(Next(c, s, step))
  {
    hide FilterUpdate;
  }

  /** The step that starts a task. */
  predicate Starts(s: State, step: Step) {
    step.Patch? && step.patchOk && step.call < |s.calls| && s.calls[step.call].Planned?
      && s.calls[step.call].key in s.objs
  }

  lemma StartIs(c: Config, s: State, step: Step)
    requires Enabled(c, s, step)
    ensures var t := Next(c, s, step);
            if Starts(s, step) then
              var key, id := s.calls[step.call].key, s.calls[step.call].taskId;
              && t.started == s.started + [Task(id, key)]
              && key in t.objs && StateAt(t, key) == RUNNING
              && t.calls == s.calls[step.call := Sending(key, |s.started|)]
            else t.started == s.started
  {
    if step.Patch? {
      PatchIs(c, s, step);
      hide Next, Enabled, FilterUpdate, Bump;
    } else if CallStep(step) {
      CallParts(c, s, step);
      hide Next, Enabled;
    } else if WorkerStep(step) {
      WorkerParts(c, s, step);
      hide Next, Enabled;
    } else {
      OutsideParts(c, s, step);
      hide Next, Enabled;
    }
  }

  lemma StartedStep(c: Config, s: State, step: Step)
    requires StartedOnce(s) && PlansFresh(s) && Enabled(c, s, step)
    ensures StartedOnce(Next(c, s, step))
  {
    if Outside(step) {
      StartedOutside(c, s, step);
    } else {
      OthersSettle(c, s, step);
      StartIs(c, s, step);
      if Starts(s, step) {
        StartedMore(s, Next(c, s, step), step.call);
      } else {
        StartedStays(s, Next(c, s, step));
      }
    }
    hide *;
  }

  lemma StartedMore(s: State, t: State, i: nat)
    requires StartedOnce(s) && PlansFresh(s) && Settles(s, t) && i < |s.calls| && s.calls[i].Planned?
    requires var key, id := s.calls[i].key, s.calls[i].taskId;
             t.started == s.started + [Task(id, key)] && key in t.objs && StateAt(t, key) == RUNNING
    ensures StartedOnce(t)
  {
    var key, id := s.calls[i].key, s.calls[i].taskId;
    assert PlanFresh(s, key, id);
    hide PlansFresh;
  }

  lemma PlansOutside(c: Config, s: State, step: Step)
    requires PlansFresh(s) && Enabled(c, s, step) && Outside(step)
    ensures PlansFresh(Next(c, s, step))
  {
    hide FilterUpdate;
    var t := Next(c, s, step);
    forall i | 0 <= i < |t.calls| && t.calls[i].Planned?
      ensures PlanFresh(t, t.calls[i].key, t.calls[i].taskId)
    {
      assert PlanFresh(s, s.calls[i].key, s.calls[i].taskId);
    }
  }

  lemma PlansStay(s: State, t: State, i: nat, call: Call)
    requires PlansFresh(s) && Settles(s, t) && t.started == s.started
    requires i < |s.calls| && t.calls == s.calls[i := call]
    requires call != Free ==> forall j | 0 <= j < |s.calls| && j != i && s.calls[j] != Free ::
             s.calls[j].key != call.key
    requires call.Planned? ==>
               && PlanFresh(t, call.key, call.taskId)
               && forall j | 0 <= j < |s.calls| && j != i && s.calls[j].Planned? :: s.calls[j].taskId != call.taskId
    ensures PlansFresh(t)
  {
    forall j | 0 <= j < |t.calls| && t.calls[j].Planned?
      ensures PlanFresh(t, t.calls[j].key, t.calls[j].taskId)
    {
      if j != i {
        assert PlanFresh(s, s.calls[j].key, s.calls[j].taskId);
      }
    }
  }

  lemma PlansStart(s: State, t: State, i: nat)
    requires PlansFresh(s) && Settles(s, t) && i < |s.calls| && s.calls[i].Planned?
    requires t.started == s.started + [Task(s.calls[i].taskId, s.calls[i].key)]
    requires t.calls == s.calls[i := Sending(s.calls[i].key, |s.started|)]
    ensures PlansFresh(t)
  {
    forall j | 0 <= j < |t.calls| && t.calls[j].Planned?
      ensures PlanFresh(t, t.calls[j].key, t.calls[j].taskId)
    {
      assert PlanFresh(s, s.calls[j].key, s.calls[j].taskId);
    }
  }

  /** A task that is read while pending is nobody's yet. */
  lemma ReadIsFresh(s: State, i: nat)
    requires IdsKnown(s) && StartedOnce(s) && PlansFresh(s) && i < |s.calls| && s.calls[i].Taken?
    requires Plan(s.objs, s.calls[i].key).Some?
    ensures var key, id := s.calls[i].key, Plan(s.objs, s.calls[i].key).value;
            && PlanFresh(s, key, id)
            && forall j | 0 <= j < |s.calls| && j != i && s.calls[j].Planned? :: s.calls[j].taskId != id
  {
    var key := s.calls[i].key;
    assert StateAt(s, key) == PENDING && IdAt(s, key) == Plan(s.objs, key).value;
    forall j | 0 <= j < |s.calls| && j != i && s.calls[j].Planned?
      ensures s.calls[j].taskId != IdAt(s, key)
    {
      assert PlanFresh(s, s.calls[j].key, s.calls[j].taskId);
    }
  }

  lemma PlansCallStep(c: Config, s: State, step: Step)
    requires IdsKnown(s) && StartedOnce(s) && PlansFresh(s) && Enabled(c, s, step) && CallStep(step) && !Starts(s, step)
    ensures PlansFresh(Next(c, s, step))
  {
    var t := Next(c, s, step);
    OthersSettle(c, s, step);
    StartIs(c, s, step);
    if step.Read? && Plan(s.objs, s.calls[step.call].key).Some? {
      ReadIsFresh(s, step.call);
    }
    CallsMove(c, s, step);
    hide Next, Plan, IdsKnown, StartedOnce, Settles;
    PlansStay(s, t, step.call, t.calls[step.call]);
  }

  lemma CallsMove(c: Config, s: State, step: Step)
    requires Enabled(c, s, step) && CallStep(step) && !Starts(s, step) && PlansFresh(s)
    ensures var t, i := Next(c, s, step), step.call;
            && i < |s.calls| && |t.calls| == |s.calls| && t.calls == s.calls[i := t.calls[i]]
            && (t.calls[i] != Free ==>
                  forall j | 0 <= j < |s.calls| && j != i && s.calls[j] != Free :: s.calls[j].key != t.calls[i].key)
            && (t.calls[i].Planned? ==>
                  && step.Read? && t.objs == s.objs && t.used == s.used && t.started == s.started
                  && t.calls[i].key == s.calls[i].key
                  && Plan(s.objs, s.calls[i].key) == Some(t.calls[i].taskId))
  {
    hide FilterUpdate, FilterCreate, Bump, Plan, PlanFresh, AfterCheck, AfterReport;
  }

  lemma PlansStep(c: Config, s: State, step: Step)
    requires IdsKnown(s) && StartedOnce(s) && PlansFresh(s) && Enabled(c, s, step)
    ensures PlansFresh(Next(c, s, step))
  {
    if Outside(step) {
      PlansOutside(c, s, step);
    } else if Starts(s, step) {
      OthersSettle(c, s, step);
      StartIs(c, s, step);
      PlansStart(s, Next(c, s, step), step.call);
    } else if CallStep(step) {
      PlansCallStep(c, s, step);
    } else {
      PlansElsewhere(c, s, step);
    }
    hide *;
  }

  lemma PlansElsewhere(c: Config, s: State, step: Step)
    requires PlansFresh(s) && Enabled(c, s, step) && !CallStep(step) && !Outside(step)
    ensures PlansFresh(Next(c, s, step))
  {
    OthersSettle(c, s, step);
    if WorkerStep(step) {
      WorkerParts(c, s, step);
    } else {
      OutsideParts(c, s, step);
    }
    PlansSettle(s, Next(c, s, step));
    hide *;
  }

  lemma PlansSettle(s: State, t: State)
    requires PlansFresh(s) && Settles(s, t) && t.calls == s.calls && t.started == s.started
    ensures PlansFresh(t)
  {
    forall i | 0 <= i < |t.calls| && t.calls[i].Planned?
      ensures PlanFresh(t, t.calls[i].key, t.calls[i].taskId)
    {
      assert PlanFresh(s, s.calls[i].key, s.calls[i].taskId);
    }
  }

  lemma GoodStep(c: Config, s: State, step: Step)
    requires Good(s) && Enabled(c, s, step)
    ensures Good(Next(c, s, step))
  {
    ConservedStep(c, s, step);
    IdsStep(c, s, step);
    StartedStep(c, s, step);
    PlansStep(c, s, step);
    hide Conserved, IdsKnown, StartedOnce, PlansFresh, Next, Enabled;
  }

  lemma {:induction false} GoodRun(c: Config, s: State, steps: seq<Step>)
    requires Good(s) && Run(c, s, steps).Some?
    ensures Good(Run(c, s, steps).value)
  {
    hide Good, Next, Enabled;
    if steps == [] {
    } else {
      GoodRun(c, s, steps[..|steps| - 1]);
      GoodStep(c, Run(c, s, steps[..|steps| - 1]).value, steps[|steps| - 1]);
    }
  }

  /** Task ids that were started differ, and each of these tasks is in exactly one place. */
  lemma EachWriteIsQueuedOnce(c: Config, s: State, steps: seq<Step>, n: nat)
    requires Quiet(s) && Run(c, s, steps).Some? && n < |Run(c, s, steps).value.started|
    ensures var t := Run(c, s, steps).value;
            && (forall m | 0 <= m < |t.started| && m != n :: t.started[m].taskId != t.started[n].taskId)
            && Gather(SendingTask, t.calls)[n] + multiset(t.queue)[n] + Gather(HeldTask, t.workers)[n]
               + multiset(t.finished)[n] == 1
  {
    QuietIsGood(s);
    GoodRun(c, s, steps);
    var t := Run(c, s, steps).value;
    hide Run, Gather;
    assert (Gather(SendingTask, t.calls) + multiset(t.queue) + Gather(HeldTask, t.workers) + multiset(t.finished))[n]
        == Upto(|t.started|)[n];
  }
}
