/**
 * Reading and patching in two requests: exactly when a patch of the annotation state machine hits a
 * task other than the one that was read, what is lost then, and what holds in runs where none does.
 */
module AnnotationPatches {
  import opened Wrappers
  import opened Annotations
  import opened AnnotationRuns

  // ---------------------------------------------------------------- writes since a read

  /** The last step with the property, if there is one. */
  function Last(steps: seq<Step>, p: Step -> bool): (at: Option<nat>)
    ensures at.Some? ==> at.value < |steps| && p(steps[at.value])
    ensures forall j | (if at.Some? then at.value < j else 0 <= j) && j < |steps| :: !p(steps[j])
  {
    if steps == [] then None
    else if p(steps[|steps| - 1]) then Some(|steps| - 1)
    else Last(steps[..|steps| - 1], p)
  }

  /** The steps in which a worker, or a call, reads its object. */
  function ChecksOf(w: nat): Step -> bool {
    (step: Step) => step.Check? && step.worker == w
  }

  function ReadsOf(i: nat): Step -> bool {
    (step: Step) => step.Read? && step.call == i
  }

  /** An outside write to the object, or its creation anew. */
  predicate Overwrites(step: Step, key: Key) {
    Outside(step) && step.key == key
  }

  predicate WrittenSince(steps: seq<Step>, read: Option<nat>, key: Key) {
    read.Some? && exists j | read.value < j < |steps| :: Overwrites(steps[j], key)
  }

  lemma WrittenMore(front: seq<Step>, last: Step, read: Option<nat>, key: Key)
    requires read.Some? && read.value < |front|
    ensures WrittenSince(front + [last], read, key) <==> WrittenSince(front, read, key) || Overwrites(last, key)
  {
    var steps := front + [last];
    assert steps[|front|] == last;
    if WrittenSince(front, read, key) {
      var j :| read.value < j < |front| && Overwrites(front[j], key);
      assert Overwrites(steps[j], key);
    }
    if j :| read.value < j < |steps| && Overwrites(steps[j], key) {
      assert j < |front| ==> Overwrites(front[j], key);
    }
  }

  /** One step on an object whose id is known: it keeps the id, or a new one is written. */
  lemma IdMoves(c: Config, s: State, step: Step, key: Key, id: string)
    requires Enabled(c, s, step) && id in s.used && id != "" && key in Next(c, s, step).objs
    ensures var t := Next(c, s, step);
            if Overwrites(step, key) then IdAt(t, key) != id else key in s.objs && IdAt(t, key) == IdAt(s, key)
  {
    if Outside(step) {
      hide FilterUpdate;
    } else {
      OthersSettle(c, s, step);
      hide Next, Enabled;
    }
  }

  /** How a worker comes to report: it has just read its own task, or it reported before. */
  lemma ReportingMoves(c: Config, s: State, step: Step, w: nat)
    requires Good(s) && Enabled(c, s, step) && w < |Next(c, s, step).workers| && Next(c, s, step).workers[w].Reporting?
    ensures var t := Next(c, s, step);
            && w < |s.workers| && t.workers[w].task < |s.started| <= |t.started|
            && t.started[t.workers[w].task] == s.started[t.workers[w].task]
            && (if ChecksOf(w)(step) then
                  var task := s.started[t.workers[w].task];
                  task.key in t.objs && IdAt(t, task.key) == task.taskId
                else s.workers[w] == t.workers[w])
  {
    StartIs(c, s, step);
    WorkersElsewhere(c, s, step);
    if !s.workers[w].Waiting? {
      HeldIsUnfinished(s, w);
    }
    if ChecksOf(w)(step) {
      CheckReads(c, s, step, w);
    }
    hide Good, Next, Enabled;
  }

  lemma WorkersElsewhere(c: Config, s: State, step: Step)
    requires Enabled(c, s, step)
    ensures var t := Next(c, s, step);
            && |t.workers| == |s.workers|
            && (forall w | 0 <= w < |s.workers| && t.workers[w].Reporting? && !ChecksOf(w)(step) ::
                  t.workers[w] == s.workers[w])
            && (step.Check? ==> step.worker < |s.workers| && !s.workers[step.worker].Waiting?)
  {
    if CallStep(step) {
      CallParts(c, s, step);
    } else if WorkerStep(step) {
      WorkerParts(c, s, step);
    } else {
      OutsideParts(c, s, step);
    }
    hide Next, Enabled;
  }

  lemma CheckReads(c: Config, s: State, step: Step, w: nat)
    requires ChecksOf(w)(step) && Enabled(c, s, step)
    requires w < |s.workers| && w < |Next(c, s, step).workers| && Next(c, s, step).workers[w].Reporting?
    ensures var t, n := Next(c, s, step), s.workers[w].task;
            && t.workers[w].task == n < |s.started|
            && t.objs == s.objs && s.started[n].key in t.objs && IdAt(t, s.started[n].key) == s.started[n].taskId
  {
    hide Next, Enabled;
    CheckIs(c, s, step);
  }

  lemma StartedIds(s: State, n: nat)
    requires Good(s) && n < |s.started|
    ensures s.started[n].taskId in s.used && s.started[n].taskId != ""
  {
  }

  /** A worker about to patch finds another task on its object exactly when that was written to in
      between. */
  lemma {:induction false} WorkerOverwritten(c: Config, s: State, steps: seq<Step>, w: nat)
    requires Quiet(s) && Run(c, s, steps).Some?
    requires w < |Run(c, s, steps).value.workers| && Run(c, s, steps).value.workers[w].Reporting?
    ensures var t, read := Run(c, s, steps).value, Last(steps, ChecksOf(w));
            && read.Some? && t.workers[w].task < |t.started|
            && var task := t.started[t.workers[w].task];
               task.key in t.objs ==> (IdAt(t, task.key) != task.taskId <==> WrittenSince(steps, read, task.key))
  {
    hide Good, Enabled, Next;
    if steps == [] {
    } else {
      var front, last := steps[..|steps| - 1], steps[|steps| - 1];
      assert front + [last] == steps;
      var u, t := Run(c, s, front).value, Run(c, s, steps).value;
      QuietIsGood(s);
      GoodRun(c, s, front);
      ReportingMoves(c, u, last, w);
      var task := t.started[t.workers[w].task];
      StartedIds(u, t.workers[w].task);
      hide Run, Quiet;
      if !ChecksOf(w)(last) {
        WorkerOverwritten(c, s, front, w);
        WrittenMore(front, last, Last(front, ChecksOf(w)), task.key);
        if task.key in t.objs {
          IdMoves(c, u, last, task.key, task.taskId);
        }
      }
    }
  }

  /** How a call comes to have a plan: it has just read a pending task, or it had the plan before. */
  lemma PlannedMoves(c: Config, s: State, step: Step, i: nat)
    requires Enabled(c, s, step) && i < |Next(c, s, step).calls| && Next(c, s, step).calls[i].Planned?
    ensures var t := Next(c, s, step);
            && i < |s.calls|
            && (if ReadsOf(i)(step) then t.calls[i].key in t.objs && IdAt(t, t.calls[i].key) == t.calls[i].taskId
                else s.calls[i] == t.calls[i])
  {
    if CallStep(step) {
      CallParts(c, s, step);
    } else if WorkerStep(step) {
      WorkerParts(c, s, step);
    } else {
      OutsideParts(c, s, step);
    }
    if ReadsOf(i)(step) {
      ReadPlans(c, s, step, i);
    }
    hide Next, Enabled;
  }

  lemma ReadPlans(c: Config, s: State, step: Step, i: nat)
    requires ReadsOf(i)(step) && Enabled(c, s, step)
    requires i < |s.calls| && i < |Next(c, s, step).calls| && Next(c, s, step).calls[i].Planned?
    ensures var t, key := Next(c, s, step), s.calls[i].key;
            && t.objs == s.objs && t.calls[i].key == key
            && key in s.objs && IdAt(s, key) == t.calls[i].taskId && StateAt(s, key) == PENDING
  {
    hide Next, Enabled, AfterRead;
    ReadIs(c, s, step);
    ReadParts(s, i, step.readOk);
  }

  lemma PlannedIds(s: State, i: nat)
    requires Good(s) && i < |s.calls| && s.calls[i].Planned?
    ensures s.calls[i].taskId in s.used && s.calls[i].taskId != ""
  {
    assert PlanFresh(s, s.calls[i].key, s.calls[i].taskId);
  }

  /** So does a Reconcile call about to patch. */
  lemma {:induction false} CallOverwritten(c: Config, s: State, steps: seq<Step>, i: nat)
    requires Quiet(s) && Run(c, s, steps).Some?
    requires i < |Run(c, s, steps).value.calls| && Run(c, s, steps).value.calls[i].Planned?
    ensures var t, read := Run(c, s, steps).value, Last(steps, ReadsOf(i));
            && read.Some?
            && var key, id := t.calls[i].key, t.calls[i].taskId;
               key in t.objs ==> (IdAt(t, key) != id <==> WrittenSince(steps, read, key))
  {
    hide Good, Enabled, Next;
    if steps == [] {
    } else {
      var front, last := steps[..|steps| - 1], steps[|steps| - 1];
      assert front + [last] == steps;
      var u, t := Run(c, s, front).value, Run(c, s, steps).value;
      PlannedMoves(c, u, last, i);
      QuietIsGood(s);
      GoodRun(c, s, front);
      hide Run, Quiet;
      if !ReadsOf(i)(last) {
        CallOverwritten(c, s, front, i);
        WrittenMore(front, last, Last(front, ReadsOf(i)), t.calls[i].key);
        PlannedIds(u, i);
        if t.calls[i].key in t.objs {
          IdMoves(c, u, last, t.calls[i].key, t.calls[i].taskId);
        }
      }
    }
  }

  // ---------------------------------------------------------------- the methods in steps

  /** Reconcile is a read step and a patch step of one call, whatever happens in between. */
  lemma ReconcileIsReadAndPatch(c: Config, s: State, i: nat, meanwhile: State, patchOk: bool)
    requires Enabled(c, s, Read(i, true)) && Enabled(c, meanwhile, Patch(i, patchOk))
    requires meanwhile.calls[i] == Next(c, s, Read(i, true)).calls[i]
    ensures var t, key := Next(c, meanwhile, Patch(i, patchOk)), s.calls[i].key;
            && key in s.objs && s.objs[key].ready && AnnOf(s.objs[key]).state == "pending"
            && (if !patchOk || key !in meanwhile.objs then
                  t.objs == meanwhile.objs && t.started == meanwhile.started && key in t.pending
                else
                  && t.objs == meanwhile.objs[key := InState(meanwhile.objs[key], "running")]
                  && t.started == meanwhile.started + [Task(AnnOf(s.objs[key]).taskId, key)])
  {
    hide Next, Enabled, FilterUpdate, Bump;
    ReadIs(c, s, Read(i, true));
    ReadParts(s, i, true);
    PatchIs(c, meanwhile, Patch(i, patchOk));
    hide AfterRead;
  }

  /** So is the status write of a worker. */
  lemma UpdateIsCheckAndReport(c: Config, s: State, w: nat, ok: bool, meanwhile: State, patchOk: bool)
    requires Enabled(c, s, Check(w, ok, true)) && Enabled(c, meanwhile, Report(w, patchOk))
    requires meanwhile.workers[w] == Next(c, s, Check(w, ok, true)).workers[w] && s.started <= meanwhile.started
    ensures var task, outcome := s.started[s.workers[w].task], if ok then "done" else "failed";
            && task.key in s.objs && AnnOf(s.objs[task.key]).taskId == task.taskId
            && Next(c, meanwhile, Report(w, patchOk)).objs
               == if !patchOk || task.key !in meanwhile.objs || AnnOf(s.objs[task.key]).state == outcome
                  then meanwhile.objs
                  else meanwhile.objs[task.key := InState(meanwhile.objs[task.key], outcome)]
  {
    hide FilterUpdate;
  }

  // ---------------------------------------------------------------- patches that hit another task

  /**
   * Over all runs: the patch of a worker touches its own object alone, and changes one that carries
   * another task exactly when that object was written to between the worker's read and its patch,
   * exists, and is not in the outcome state, neither as read nor now.
   */
  lemma WorkerPatchHitsOtherTask(c: Config, s: State, steps: seq<Step>, w: nat)
    requires Quiet(s) && Run(c, s, steps).Some? && Enabled(c, Run(c, s, steps).value, Report(w, true))
    ensures var t := Run(c, s, steps).value;
            var u, task := Next(c, t, Report(w, true)), t.started[t.workers[w].task];
            var outcome := if t.workers[w].ok then "done" else "failed";
            && u.objs.Keys == t.objs.Keys
            && (forall k | k in t.objs && k != task.key :: u.objs[k] == t.objs[k])
            && ((task.key in t.objs && IdAt(t, task.key) != task.taskId && u.objs[task.key] != t.objs[task.key])
                <==> && task.key in t.objs && WrittenSince(steps, Last(steps, ChecksOf(w)), task.key)
                     && t.workers[w].seen != outcome && StateAt(t, task.key) != outcome)
  {
    WorkerOverwritten(c, s, steps, w);
    ReportPatches(c, Run(c, s, steps).value, w);
    hide *;
  }

  lemma ReportPatches(c: Config, t: State, w: nat)
    requires Enabled(c, t, Report(w, true))
    ensures var u, task := Next(c, t, Report(w, true)), t.started[t.workers[w].task];
            var outcome := if t.workers[w].ok then "done" else "failed";
            && u.objs.Keys == t.objs.Keys
            && (forall k | k in t.objs && k != task.key :: u.objs[k] == t.objs[k])
            && (task.key in t.objs ==>
                  (u.objs[task.key] != t.objs[task.key]
                   <==> t.workers[w].seen != outcome && StateAt(t, task.key) != outcome))
  {
    hide FilterUpdate;
  }

  /**
   * Over all runs: the patch of a Reconcile call touches its own object alone, and moves another task
   * than the one it then starts exactly when the object was written to between its read and its patch.
   */
  lemma CallPatchHitsOtherTask(c: Config, s: State, steps: seq<Step>, i: nat)
    requires Quiet(s) && Run(c, s, steps).Some? && Enabled(c, Run(c, s, steps).value, Patch(i, true))
    ensures var t := Run(c, s, steps).value;
            var u, key, id := Next(c, t, Patch(i, true)), t.calls[i].key, t.calls[i].taskId;
            && u.objs.Keys == t.objs.Keys
            && (forall k | k in t.objs && k != key :: u.objs[k] == t.objs[k])
            && (key in t.objs ==>
                  && u.objs[key] == InState(t.objs[key], "running")
                  && u.started == t.started + [Task(id, key)]
                  && (IdAt(t, key) != id <==> WrittenSince(steps, Last(steps, ReadsOf(i)), key)))
  {
    CallOverwritten(c, s, steps, i);
    PatchStarts(c, Run(c, s, steps).value, i);
    hide *;
  }

  lemma PatchStarts(c: Config, t: State, i: nat)
    requires Enabled(c, t, Patch(i, true))
    ensures var u, key, id := Next(c, t, Patch(i, true)), t.calls[i].key, t.calls[i].taskId;
            && u.objs.Keys == t.objs.Keys
            && (forall k | k in t.objs && k != key :: u.objs[k] == t.objs[k])
            && (key in t.objs ==>
                  u.objs[key] == InState(t.objs[key], RUNNING) && u.started == t.started + [Task(id, key)])
  {
    PatchIs(c, t, Patch(i, true));
    hide Next, FilterUpdate, Plan, InCall, Bump;
  }

  // ---------------------------------------------------------------- the task that is lost

  /** Not started, planned by nobody, and not pending anywhere. */
  predicate Dropped(s: State, id: string) {
    && id != "" && id in s.used && NotStarted(s.started, id)
    && (forall i | 0 <= i < |s.calls| && s.calls[i].Planned? :: s.calls[i].taskId != id)
    && forall k | k in s.objs && IdAt(s, k) == id :: StateAt(s, k) != PENDING
  }

  lemma DroppedStep(c: Config, s: State, step: Step, id: string)
    requires Dropped(s, id) && Enabled(c, s, step)
    ensures Dropped(Next(c, s, step), id)
  {
    var t := Next(c, s, step);
    StartIs(c, s, step);
    if Outside(step) {
      OutsideParts(c, s, step);
      hide FilterUpdate, FilterCreate;
    } else {
      OthersSettle(c, s, step);
      forall i | 0 <= i < |t.calls| && t.calls[i].Planned?
        ensures t.calls[i].taskId != id
      {
        PlannedMoves(c, s, step, i);
        if ReadsOf(i)(step) {
          ReadPlans(c, s, step, i);
        }
      }
      hide Next, Enabled;
    }
  }

  lemma {:induction false} DroppedRun(c: Config, s: State, steps: seq<Step>, id: string)
    requires Dropped(s, id) && Run(c, s, steps).Some?
    ensures Dropped(Run(c, s, steps).value, id)
  {
    hide Dropped, Enabled, Next;
    if steps == [] {
    } else {
      DroppedRun(c, s, steps[..|steps| - 1], id);
      DroppedStep(c, Run(c, s, steps[..|steps| - 1]).value, steps[|steps| - 1], id);
    }
  }

  /**
   * A pending task that the patch of an older plan has moved to running is lost: it is started in no
   * continuation whatsoever.
   */
  lemma OverrunIsNeverStarted(c: Config, s: State, i: nat, steps: seq<Step>)
    requires Good(s) && Enabled(c, s, Patch(i, true)) && s.calls[i].key in s.objs
    requires StateAt(s, s.calls[i].key) == PENDING && IdAt(s, s.calls[i].key) != s.calls[i].taskId
    requires Run(c, Next(c, s, Patch(i, true)), steps).Some?
    ensures NotStarted(Run(c, Next(c, s, Patch(i, true)), steps).value.started, IdAt(s, s.calls[i].key))
  {
    OverrunIsDropped(c, s, i);
    DroppedRun(c, Next(c, s, Patch(i, true)), steps, IdAt(s, s.calls[i].key));
    hide Run, Next, Enabled;
  }

  lemma OverrunIsDropped(c: Config, s: State, i: nat)
    requires Good(s) && Enabled(c, s, Patch(i, true)) && s.calls[i].key in s.objs
    requires StateAt(s, s.calls[i].key) == PENDING && IdAt(s, s.calls[i].key) != s.calls[i].taskId
    ensures Dropped(Next(c, s, Patch(i, true)), IdAt(s, s.calls[i].key))
  {
    hide Next, Conserved;
    var t, key := Next(c, s, Patch(i, true)), s.calls[i].key;
    var id := IdAt(s, key);
    StartIs(c, s, Patch(i, true));
    OthersSettle(c, s, Patch(i, true));
    PendingIsNew(s, key);
    forall j | 0 <= j < |t.calls| && t.calls[j].Planned?
      ensures t.calls[j].taskId != id
    {
      PlannedElsewhere(s, i, j);
    }
    assert t.objs.Keys <= s.objs.Keys;
    forall k | k in t.objs && IdAt(t, k) == id
      ensures k == key
    {
      IdsDiffer(s, k, key);
    }
    hide Enabled, Good;
  }

  lemma PendingIsNew(s: State, k: Key)
    requires Good(s) && k in s.objs && StateAt(s, k) == PENDING
    ensures IdAt(s, k) != "" && IdAt(s, k) in s.used && NotStarted(s.started, IdAt(s, k))
  {
    hide Conserved, PlansFresh;
  }

  lemma PlannedElsewhere(s: State, i: nat, j: nat)
    requires Good(s) && i < |s.calls| && s.calls[i].Planned? && s.calls[i].key in s.objs
    requires j < |s.calls| && j != i && s.calls[j].Planned?
    ensures s.calls[j].taskId != IdAt(s, s.calls[i].key)
  {
    assert PlanFresh(s, s.calls[j].key, s.calls[j].taskId);
    hide Conserved, IdsKnown, StartedOnce;
  }

  lemma IdsDiffer(s: State, k: Key, m: Key)
    requires Good(s) && k in s.objs && m in s.objs && IdAt(s, k) == IdAt(s, m) != ""
    ensures k == m
  {
    hide Conserved, StartedOnce, PlansFresh;
  }

  // ---------------------------------------------------------------- runs in which it happens

  lemma RunMore(c: Config, s: State, steps: seq<Step>, step: Step)
    requires Run(c, s, steps).Some? && Enabled(c, Run(c, s, steps).value, step)
    ensures Run(c, s, steps + [step]) == Some(Next(c, Run(c, s, steps).value, step))
  {
    assert (steps + [step])[..|steps|] == steps;
    hide Enabled, Next;
  }

  /** An object on which the controller waits for work: ready, matching and with annotations. */
  predicate Watched(c: Config, s: State, k: Key) {
    && k in s.objs && s.objs[k].ready && s.objs[k].ann.Some? && s.objs[k].owned
    && Contains(s.objs[k].name, c.restoreKey + "-")
  }

  function ReadSteps(k: Key, a: string): seq<Step> {
    [Write(k, a, PENDING), Take(0, k), Read(0, true)]
  }

  function WithAnn(s: State, k: Key, id: string, state: string): Objects
    requires k in s.objs
  {
    s.objs[k := s.objs[k].(ann := Some(Ann(id, state)))]
  }

  /** Up to a plan, from anywhere quiet. */
  lemma PlanReached(c: Config, s: State, k: Key, a: string)
    requires Quiet(s) && Watched(c, s, k) && s.calls != [] && a != "" && a !in s.used
    ensures Run(c, s, ReadSteps(k, a)).Some?
    ensures var t := Run(c, s, ReadSteps(k, a)).value;
            && t.objs == WithAnn(s, k, a, PENDING) && t.used == s.used + {a}
            && t.calls == s.calls[0 := Planned(k, a)] && t.workers == s.workers
            && t.queue == [] && t.started == []
  {
    var one := Next(c, s, Write(k, a, PENDING));
    assert k in one.pending;
    RunMore(c, s, [], Write(k, a, PENDING));
    assert [] + [Write(k, a, PENDING)] == [Write(k, a, PENDING)];
    assert one.calls == s.calls;
    assert !InCall(one, k);
    var two := Next(c, one, Take(0, k));
    RunMore(c, s, [Write(k, a, PENDING)], Take(0, k));
    assert [Write(k, a, PENDING)] + [Take(0, k)] == [Write(k, a, PENDING), Take(0, k)];
    RunMore(c, s, [Write(k, a, PENDING), Take(0, k)], Read(0, true));
    assert [Write(k, a, PENDING), Take(0, k)] + [Read(0, true)] == ReadSteps(k, a);
    hide Run, FilterUpdate, InCall;
  }

  /** One write more and the patch: the newer task runs, it is never queued, the older one starts. */
  lemma CallRunHitsOtherTask(c: Config, s: State, k: Key, a: string, b: string)
    requires Quiet(s) && Watched(c, s, k) && s.calls != [] && a != b && a != "" && b != "" && a !in s.used
             && b !in s.used
    ensures var steps := ReadSteps(k, a) + [Write(k, b, PENDING)] + [Patch(0, true)];
            && Run(c, s, steps).Some?
            && var t := Run(c, s, steps).value;
               t.objs == WithAnn(s, k, b, "running") && t.started == [Task(a, k)]
  {
    hide Run, FilterUpdate, ReadSteps;
    PlanReached(c, s, k, a);
    var t := Run(c, s, ReadSteps(k, a)).value;
    RunMore(c, s, ReadSteps(k, a), Write(k, b, PENDING));
    var u := Next(c, t, Write(k, b, PENDING));
    RunMore(c, s, ReadSteps(k, a) + [Write(k, b, PENDING)], Patch(0, true));
    hide Quiet, Watched;
  }

  function CheckSteps(k: Key, a: string, ok: bool): seq<Step> {
    ReadSteps(k, a) + [Patch(0, true)] + [Send(0)] + [Receive(0)] + [Check(0, ok, true)]
  }

  lemma QueueReached(c: Config, s: State, k: Key, a: string)
    requires Quiet(s) && Watched(c, s, k) && s.calls != [] && c.capacity > 0 && a != "" && a !in s.used
    ensures var steps := ReadSteps(k, a) + [Patch(0, true)] + [Send(0)];
            && Run(c, s, steps).Some?
            && var t := Run(c, s, steps).value;
               && t.objs == WithAnn(s, k, a, RUNNING) && t.used == s.used + {a}
               && t.workers == s.workers && t.queue == [0] && t.started == [Task(a, k)]
  {
    hide Run, FilterUpdate, ReadSteps;
    PlanReached(c, s, k, a);
    var t := Run(c, s, ReadSteps(k, a)).value;
    RunMore(c, s, ReadSteps(k, a), Patch(0, true));
    var u := Next(c, t, Patch(0, true));
    assert u.calls[0] == Sending(k, 0);
    RunMore(c, s, ReadSteps(k, a) + [Patch(0, true)], Send(0));
    hide Quiet, Watched;
  }

  lemma CheckReached(c: Config, s: State, k: Key, a: string, ok: bool)
    requires Quiet(s) && Watched(c, s, k) && s.calls != [] && s.workers != [] && c.capacity > 0
    requires a != "" && a !in s.used
    ensures Run(c, s, CheckSteps(k, a, ok)).Some?
    ensures var t := Run(c, s, CheckSteps(k, a, ok)).value;
            && t.objs == WithAnn(s, k, a, RUNNING) && t.used == s.used + {a}
            && t.workers == s.workers[0 := Reporting(0, RUNNING, ok)] && t.started == [Task(a, k)]
  {
    QueueReached(c, s, k, a);
    var steps := ReadSteps(k, a) + [Patch(0, true)] + [Send(0)];
    var t := Run(c, s, steps).value;
    assert s.workers[0].Waiting?;
    hide Run, FilterUpdate, ReadSteps, Quiet, Watched;
    ReceivesAndChecks(c, t, k, a, ok);
    RunMore(c, s, steps, Receive(0));
    RunMore(c, s, steps + [Receive(0)], Check(0, ok, true));
    hide Next, Enabled;
    assert s.workers[0 := Busy(0)][0 := Reporting(0, RUNNING, ok)] == s.workers[0 := Reporting(0, RUNNING, ok)];
  }

  /** A free worker takes the queued task and reads it running. */
  lemma ReceivesAndChecks(c: Config, t: State, k: Key, a: string, ok: bool)
    requires t.workers != [] && t.workers[0].Waiting? && t.queue == [0] && t.started == [Task(a, k)]
    requires k in t.objs && t.objs[k].ann == Some(Ann(a, RUNNING))
    ensures Enabled(c, t, Receive(0)) && Enabled(c, Next(c, t, Receive(0)), Check(0, ok, true))
    ensures var u := Next(c, Next(c, t, Receive(0)), Check(0, ok, true));
            && u.objs == t.objs && u.used == t.used && u.started == t.started
            && u.workers == t.workers[0 := Busy(0)][0 := Reporting(0, RUNNING, ok)]
  {
    var u := Next(c, t, Receive(0));
    assert u.workers[0] == Busy(0);
  }

  /** A write and the worker's patch: the newer task is finished by the older worker. */
  lemma WorkerRunHitsOtherTask(c: Config, s: State, k: Key, a: string, b: string, ok: bool)
    requires Quiet(s) && Watched(c, s, k) && s.calls != [] && s.workers != [] && c.capacity > 0
    requires a != b && a != "" && b != "" && a !in s.used && b !in s.used
    ensures var steps := CheckSteps(k, a, ok) + [Write(k, b, PENDING)] + [Report(0, true)];
            && Run(c, s, steps).Some?
            && Run(c, s, steps).value.objs == WithAnn(s, k, b, if ok then "done" else "failed")
  {
    CheckReached(c, s, k, a, ok);
    var t := Run(c, s, CheckSteps(k, a, ok)).value;
    hide Run, CheckSteps, Quiet, Watched;
    WriteAndReport(c, t, k, a, b, ok);
    RunMore(c, s, CheckSteps(k, a, ok), Write(k, b, PENDING));
    RunMore(c, s, CheckSteps(k, a, ok) + [Write(k, b, PENDING)], Report(0, true));
    hide Next, Enabled;
    assert WithAnn(s, k, a, RUNNING)[k := s.objs[k].(ann := Some(Ann(b, FinalState(ok))))]
           == WithAnn(s, k, b, FinalState(ok));
  }

  lemma WriteAndReport(c: Config, t: State, k: Key, a: string, b: string, ok: bool)
    requires k in t.objs && b != "" && b !in t.used && t.started == [Task(a, k)]
    requires t.workers != [] && t.workers[0] == Reporting(0, RUNNING, ok)
    ensures Enabled(c, t, Write(k, b, PENDING))
    ensures Enabled(c, Next(c, t, Write(k, b, PENDING)), Report(0, true))
    ensures Next(c, Next(c, t, Write(k, b, PENDING)), Report(0, true)).objs
         == t.objs[k := t.objs[k].(ann := Some(Ann(b, FinalState(ok))))]
  {
    hide FilterUpdate;
  }

  // ---------------------------------------------------------------- runs in which it does not

  /** A patch that is accepted finds the task it was read for, if the object is still there. */
  predicate OnTarget(s: State, step: Step) {
    && (step.Patch? && step.patchOk && step.call < |s.calls| && s.calls[step.call].Planned? ==>
          var Planned(key, id) := s.calls[step.call];
          key in s.objs ==> IdAt(s, key) == id)
    && (step.Report? && step.patchOk && step.worker < |s.workers| && s.workers[step.worker].Reporting?
        && s.workers[step.worker].task < |s.started| ==>
          var task := s.started[s.workers[step.worker].task];
          task.key in s.objs ==> IdAt(s, task.key) == task.taskId)
  }

  /** All patches of the run find their task. */
  predicate AllOnTarget(c: Config, s: State, steps: seq<Step>)
    requires Run(c, s, steps).Some?
  {
    steps == [] ||
    var front := steps[..|steps| - 1];
    AllOnTarget(c, s, front) && OnTarget(Run(c, s, front).value, steps[|steps| - 1])
  }

  /** Unfinished tasks still on their object are running, planned ones pending. */
  predicate Orderly(s: State) {
    && (forall n, k | 0 <= n < |s.started| && n !in s.finished && k in s.objs && IdAt(s, k) == s.started[n].taskId ::
          StateAt(s, k) == RUNNING)
    && (forall i, k | 0 <= i < |s.calls| && s.calls[i].Planned? && k in s.objs && IdAt(s, k) == s.calls[i].taskId ::
          StateAt(s, k) == PENDING)
  }

  lemma OutsideObjects(c: Config, s: State, step: Step, k: Key)
    requires Good(s) && Enabled(c, s, step) && Outside(step) && k in Next(c, s, step).objs
    ensures if step.key == k then IdAt(Next(c, s, step), k) == "" || IdAt(Next(c, s, step), k) !in s.used
            else k in s.objs && Next(c, s, step).objs[k] == s.objs[k]
  {
    hide Good, FilterUpdate;
  }

  lemma OrderlyOutside(c: Config, s: State, step: Step)
    requires Good(s) && Orderly(s) && Enabled(c, s, step) && Outside(step)
    ensures Orderly(Next(c, s, step))
  {
    hide Next, Enabled, Good;
    OutsideParts(c, s, step);
    var t := Next(c, s, step);
    forall n, k | 0 <= n < |t.started| && n !in t.finished && k in t.objs && IdAt(t, k) == t.started[n].taskId
      ensures StateAt(t, k) == RUNNING
    {
      OutsideObjects(c, s, step, k);
      StartedIds(s, n);
    }
    forall i, k | 0 <= i < |t.calls| && t.calls[i].Planned? && k in t.objs && IdAt(t, k) == t.calls[i].taskId
      ensures StateAt(t, k) == PENDING
    {
      OutsideObjects(c, s, step, k);
      PlannedIds(s, i);
    }
  }

  lemma RunningStays(s: State, t: State)
    requires Orderly(s) && t.started == s.started && forall n | n in s.finished :: n in t.finished
    requires forall k | k in t.objs :: k in s.objs && t.objs[k].ann == s.objs[k].ann
    ensures forall n, k | 0 <= n < |t.started| && n !in t.finished && k in t.objs
            && IdAt(t, k) == t.started[n].taskId ::
              StateAt(t, k) == RUNNING
  {
  }

  /** Every other step but the patches leaves the objects' annotations alone. */
  lemma OrderlyElsewhere(c: Config, s: State, step: Step)
    requires Good(s) && Orderly(s) && Enabled(c, s, step) && !Outside(step) && !step.Patch? && !step.Report?
    ensures Orderly(Next(c, s, step))
  {
    var t := Next(c, s, step);
    AnnotationsStay(c, s, step);
    StartIs(c, s, step);
    FinishedGrows(c, s, step);
    RunningStays(s, t);
    forall i, k | 0 <= i < |t.calls| && t.calls[i].Planned? && k in t.objs && IdAt(t, k) == t.calls[i].taskId
      ensures StateAt(t, k) == PENDING
    {
      PlannedIsPending(c, s, step, i, k);
    }
    hide Next, Enabled, Good, Outside, IdAt, StateAt;
  }

  lemma PlannedIsPending(c: Config, s: State, step: Step, i: nat, k: Key)
    requires Good(s) && Orderly(s) && Enabled(c, s, step) && !Outside(step) && !step.Patch? && !step.Report?
    requires i < |Next(c, s, step).calls| && Next(c, s, step).calls[i].Planned? && k in Next(c, s, step).objs
    requires IdAt(Next(c, s, step), k) == Next(c, s, step).calls[i].taskId
    ensures StateAt(Next(c, s, step), k) == PENDING
  {
    AnnotationsStay(c, s, step);
    PlannedMoves(c, s, step, i);
    if ReadsOf(i)(step) {
      ReadIsPending(c, s, step, i, k);
    } else {
      PlanIsPending(s, i, k);
    }
    hide Next, Enabled, Good, Orderly;
  }

  lemma PlanIsPending(s: State, i: nat, k: Key)
    requires Orderly(s) && i < |s.calls| && s.calls[i].Planned? && k in s.objs && IdAt(s, k) == s.calls[i].taskId
    ensures StateAt(s, k) == PENDING
  {
  }

  lemma ReadIsPending(c: Config, s: State, step: Step, i: nat, k: Key)
    requires Good(s) && Enabled(c, s, step) && ReadsOf(i)(step)
    requires i < |s.calls| && i < |Next(c, s, step).calls| && Next(c, s, step).calls[i].Planned? && k in s.objs
    requires IdAt(s, k) == Next(c, s, step).calls[i].taskId
    ensures StateAt(s, k) == PENDING
  {
    ReadPlans(c, s, step, i);
    hide Next, Enabled, Conserved, StartedOnce, PlansFresh;
  }

  lemma AnnotationsStay(c: Config, s: State, step: Step)
    requires Enabled(c, s, step) && !Outside(step) && !step.Patch? && !step.Report?
    ensures forall k | k in Next(c, s, step).objs :: k in s.objs && Next(c, s, step).objs[k].ann == s.objs[k].ann
  {
    if step.SetReady? || step.Delete? {
      hide FilterUpdate;
    } else {
      NothingPatched(c, s, step);
      hide Next, Enabled;
    }
  }

  lemma FinishedGrows(c: Config, s: State, step: Step)
    requires Enabled(c, s, step)
    ensures forall n | n in s.finished :: n in Next(c, s, step).finished
  {
    if CallStep(step) {
      CallParts(c, s, step);
    } else if WorkerStep(step) {
      WorkerParts(c, s, step);
    } else {
      OutsideParts(c, s, step);
    }
    hide Next, Enabled;
  }

  /** What a patch on target does to its object. */
  lemma PatchOnTarget(c: Config, s: State, step: Step, k: Key)
    requires Good(s) && Orderly(s) && Enabled(c, s, step) && OnTarget(s, step) && step.Patch?
    requires k in Next(c, s, step).objs
    ensures var t := Next(c, s, step);
            && k in s.objs && IdAt(t, k) == IdAt(s, k)
            && (t.objs[k] != s.objs[k] ==>
                  && Starts(s, step) && k == s.calls[step.call].key && IdAt(s, k) == s.calls[step.call].taskId != ""
                  && StateAt(s, k) == PENDING && StateAt(t, k) == RUNNING)
            && (Starts(s, step) ==> t.objs[s.calls[step.call].key] == InState(s.objs[s.calls[step.call].key], RUNNING))
  {
    PlannedIds(s, step.call);
    PatchedObjects(c, s, step);
    hide Good, Next;
  }

  lemma ReportOnTarget(c: Config, s: State, step: Step, k: Key)
    requires Good(s) && Orderly(s) && Enabled(c, s, step) && OnTarget(s, step) && step.Report?
    requires k in Next(c, s, step).objs
    ensures var t, n := Next(c, s, step), s.workers[step.worker].task;
            && k in s.objs && IdAt(t, k) == IdAt(s, k)
            && (t.objs[k] != s.objs[k] ==>
                  && IdAt(s, k) == s.started[n].taskId != ""
                  && StateAt(s, k) == RUNNING && StateAt(t, k) == FinalState(s.workers[step.worker].ok))
  {
    HeldIsUnfinished(s, step.worker);
    StartedIds(s, s.workers[step.worker].task);
    ReportedObjects(c, s, step);
    hide Good, Next;
  }

  lemma OrderlyPatch(c: Config, s: State, step: Step)
    requires Good(s) && Orderly(s) && Enabled(c, s, step) && OnTarget(s, step) && step.Patch?
    ensures Orderly(Next(c, s, step))
  {
    var t := Next(c, s, step);
    forall n, k | 0 <= n < |t.started| && n !in t.finished && k in t.objs && IdAt(t, k) == t.started[n].taskId
      ensures StateAt(t, k) == RUNNING
    {
      PatchRunning(c, s, step, n, k);
    }
    forall i, k | 0 <= i < |t.calls| && t.calls[i].Planned? && k in t.objs && IdAt(t, k) == t.calls[i].taskId
      ensures StateAt(t, k) == PENDING
    {
      PatchPending(c, s, step, i, k);
    }
    hide Next, Enabled, Good;
  }

  lemma PatchRunning(c: Config, s: State, step: Step, n: nat, k: Key)
    requires Good(s) && Orderly(s) && Enabled(c, s, step) && OnTarget(s, step) && step.Patch?
    requires n < |Next(c, s, step).started| && n !in Next(c, s, step).finished && k in Next(c, s, step).objs
    requires IdAt(Next(c, s, step), k) == Next(c, s, step).started[n].taskId
    ensures StateAt(Next(c, s, step), k) == RUNNING
  {
    hide Next, OnTarget, Conserved;
    PatchOnTarget(c, s, step, k);
    StartIs(c, s, step);
    CallParts(c, s, step);
    if n == |s.started| {
      assert PlanFresh(s, s.calls[step.call].key, s.calls[step.call].taskId);
    }
    hide Enabled, Good;
  }

  lemma PatchPending(c: Config, s: State, step: Step, i: nat, k: Key)
    requires Good(s) && Orderly(s) && Enabled(c, s, step) && OnTarget(s, step) && step.Patch?
    requires i < |Next(c, s, step).calls| && Next(c, s, step).calls[i].Planned? && k in Next(c, s, step).objs
    requires IdAt(Next(c, s, step), k) == Next(c, s, step).calls[i].taskId
    ensures StateAt(Next(c, s, step), k) == PENDING
  {
    hide Next, Enabled, Conserved, IdsKnown, StartedOnce, OnTarget;
    PatchOnTarget(c, s, step, k);
    CallParts(c, s, step);
  }

  lemma OrderlyReport(c: Config, s: State, step: Step)
    requires Good(s) && Orderly(s) && Enabled(c, s, step) && OnTarget(s, step) && step.Report?
    ensures Orderly(Next(c, s, step))
  {
    hide OnTarget, Conserved;
    var t, n := Next(c, s, step), s.workers[step.worker].task;
    StartIs(c, s, step);
    WorkerParts(c, s, step);
    HeldIsUnfinished(s, step.worker);
    assert n in t.finished;
    hide Next;
    forall m, k | 0 <= m < |t.started| && m !in t.finished && k in t.objs && IdAt(t, k) == t.started[m].taskId
      ensures StateAt(t, k) == RUNNING
    {
      ReportOnTarget(c, s, step, k);
      assert s.started[m].taskId != s.started[n].taskId;
    }
    forall i, k | 0 <= i < |t.calls| && t.calls[i].Planned? && k in t.objs && IdAt(t, k) == t.calls[i].taskId
      ensures StateAt(t, k) == PENDING
    {
      ReportOnTarget(c, s, step, k);
      assert PlanFresh(s, s.calls[i].key, s.calls[i].taskId);
    }
    hide Enabled;
  }

  lemma OrderlyStep(c: Config, s: State, step: Step)
    requires Good(s) && Orderly(s) && Enabled(c, s, step) && OnTarget(s, step)
    ensures Orderly(Next(c, s, step))
  {
    if Outside(step) {
      OrderlyOutside(c, s, step);
    } else if step.Patch? {
      OrderlyPatch(c, s, step);
    } else if step.Report? {
      OrderlyReport(c, s, step);
    } else {
      OrderlyElsewhere(c, s, step);
    }
    hide *;
  }

  lemma {:induction false} OrderlyRun(c: Config, s: State, steps: seq<Step>)
    requires Quiet(s) && Run(c, s, steps).Some? && AllOnTarget(c, s, steps)
    ensures Orderly(Run(c, s, steps).value)
  {
    hide Orderly, Good, OnTarget, Enabled, Next;
    if steps == [] {
      hide *;
      QuietIsOrderly(s);
    } else {
      var front := steps[..|steps| - 1];
      OrderlyRun(c, s, front);
      QuietIsGood(s);
      GoodRun(c, s, front);
      OrderlyStep(c, Run(c, s, front).value, steps[|steps| - 1]);
    }
  }

  lemma QuietIsOrderly(s: State)
    requires Quiet(s)
    ensures Orderly(s)
  {
  }

  /**
   * In every run whose patches are all on target, no step but an outside write changes an annotation
   * other than from pending to running, or from running to the outcome of its worker: done without an
   * error, failed with one; and task ids stay.
   */
  lemma ControllerMovesForward(c: Config, s: State, steps: seq<Step>, step: Step, k: Key)
    requires Quiet(s) && Run(c, s, steps).Some? && AllOnTarget(c, s, steps) && !Outside(step)
    requires Enabled(c, Run(c, s, steps).value, step) && OnTarget(Run(c, s, steps).value, step)
    requires k in Next(c, Run(c, s, steps).value, step).objs
    ensures var t, u := Run(c, s, steps).value, Next(c, Run(c, s, steps).value, step);
            && k in t.objs && IdAt(u, k) == IdAt(t, k)
            && (u.objs[k].ann != t.objs[k].ann ==>
                  && IdAt(t, k) != ""
                  && (|| (step.Patch? && StateAt(t, k) == "pending" && StateAt(u, k) == "running")
                      || (step.Report? && step.worker < |t.workers| && t.workers[step.worker].Reporting?
                          && StateAt(t, k) == "running"
                          && StateAt(u, k) == if t.workers[step.worker].ok then "done" else "failed")))
  {
    hide *;
    QuietIsGood(s);
    GoodRun(c, s, steps);
    OrderlyRun(c, s, steps);
    StepMovesForward(c, Run(c, s, steps).value, step, k);
  }

  lemma StepMovesForward(c: Config, t: State, step: Step, k: Key)
    requires Good(t) && Orderly(t) && Enabled(c, t, step) && OnTarget(t, step) && !Outside(step)
    requires k in Next(c, t, step).objs
    ensures var u := Next(c, t, step);
            && k in t.objs && IdAt(u, k) == IdAt(t, k)
            && (u.objs[k].ann != t.objs[k].ann ==>
                  && IdAt(t, k) != ""
                  && (|| (step.Patch? && StateAt(t, k) == "pending" && StateAt(u, k) == "running")
                      || (step.Report? && step.worker < |t.workers| && t.workers[step.worker].Reporting?
                          && StateAt(t, k) == "running"
                          && StateAt(u, k) == if t.workers[step.worker].ok then "done" else "failed")))
  {
    hide Good, Orderly, Next, OnTarget;
    if step.Patch? {
      PatchOnTarget(c, t, step, k);
    } else if step.Report? {
      ReportOnTarget(c, t, step, k);
    } else {
      AnnotationsStay(c, t, step);
    }
  }

  /** Which patches are on target: those whose object was not written to since their read. */
  lemma OnTargetMeansUndisturbed(c: Config, s: State, steps: seq<Step>, step: Step)
    requires Quiet(s) && Run(c, s, steps).Some? && Enabled(c, Run(c, s, steps).value, step)
    requires (step.Patch? || step.Report?) && step.patchOk
    ensures var t := Run(c, s, steps).value;
            var key := if step.Patch? then t.calls[step.call].key else t.started[t.workers[step.worker].task].key;
            var read := if step.Patch? then Last(steps, ReadsOf(step.call)) else Last(steps, ChecksOf(step.worker));
            OnTarget(t, step) <==> key !in t.objs || !WrittenSince(steps, read, key)
  {
    if step.Patch? {
      CallOverwritten(c, s, steps, step.call);
    } else {
      WorkerOverwritten(c, s, steps, step.worker);
    }
    hide Quiet, Run, WrittenSince;
  }
}
