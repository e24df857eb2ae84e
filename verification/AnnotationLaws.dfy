/**
 * Laws of the annotation state machine over its runs, in the states' own texts: which outcome an object
 * shows, which writes are noticed, and in which order tasks are received.
 */
module AnnotationLaws {
  import opened Wrappers
  import opened Names
  import opened Annotations
  import opened AnnotationRuns
  import opened AnnotationPatches

  // ---------------------------------------------------------------- outcomes

  /** At step i the worker of task n ends its restore, without an error or with one. */
  predicate EndsAt(c: Config, s: State, steps: seq<Step>, i: nat, n: nat, ok: bool)
    requires i < |steps|
  {
    && steps[i].Check? && steps[i].ok == ok
    && var t := Run(c, s, steps[..i]);
       t.Some? && steps[i].worker < |t.value.workers| && t.value.workers[steps[i].worker] == Busy(n)
  }

  predicate Ended(c: Config, s: State, steps: seq<Step>, n: nat, ok: bool) {
    exists i | 0 <= i < |steps| :: EndsAt(c, s, steps, i, n, ok)
  }

  /** What a started task shows on its object is true: running, or how its worker has ended. */
  predicate ShowsOutcome(c: Config, s: State, steps: seq<Step>, n: nat, state: string) {
    || state == "running"
    || (state == "done" && Ended(c, s, steps, n, true))
    || (state == "failed" && Ended(c, s, steps, n, false))
  }

  predicate Outcomes(c: Config, s: State, steps: seq<Step>, t: State) {
    && (forall w | 0 <= w < |t.workers| && t.workers[w].Reporting? ::
          t.workers[w].seen == "running" && Ended(c, s, steps, t.workers[w].task, t.workers[w].ok))
    && (forall n, k | 0 <= n < |t.started| && k in t.objs && IdAt(t, k) == t.started[n].taskId ::
          ShowsOutcome(c, s, steps, n, StateAt(t, k)))
  }

  lemma EndedBefore(c: Config, s: State, front: seq<Step>, last: Step, n: nat, ok: bool)
    requires Ended(c, s, front, n, ok)
    ensures Ended(c, s, front + [last], n, ok)
  {
    var steps := front + [last];
    var i :| 0 <= i < |front| && EndsAt(c, s, front, i, n, ok);
    assert steps[..i] == front[..i] && steps[i] == front[i];
    hide Run;
    assert EndsAt(c, s, steps, i, n, ok);
  }

  lemma ShownBefore(c: Config, s: State, front: seq<Step>, last: Step, n: nat, state: string)
    requires ShowsOutcome(c, s, front, n, state)
    ensures ShowsOutcome(c, s, front + [last], n, state)
  {
    hide Ended;
    if Ended(c, s, front, n, true) {
      EndedBefore(c, s, front, last, n, true);
    }
    if Ended(c, s, front, n, false) {
      EndedBefore(c, s, front, last, n, false);
    }
  }

  /** A worker that ends reads its own task, which is running, and will report how it ended. */
  lemma CheckEnds(c: Config, s: State, step: Step, w: nat)
    requires Good(s) && Orderly(s) && Enabled(c, s, step) && ChecksOf(w)(step)
    requires w < |Next(c, s, step).workers| && Next(c, s, step).workers[w].Reporting?
    ensures w < |s.workers| && s.workers[w].Busy?
    ensures Next(c, s, step).workers[w] == Reporting(s.workers[w].task, "running", step.ok)
  {
    hide Next, Enabled, IdsKnown, StartedOnce, PlansFresh;
    CheckTells(c, s, step, w);
    HeldIsUnfinished(s, w);
    hide Conserved;
  }

  lemma CheckTells(c: Config, s: State, step: Step, w: nat)
    requires Enabled(c, s, step) && ChecksOf(w)(step)
    requires w < |Next(c, s, step).workers| && Next(c, s, step).workers[w].Reporting?
    ensures w < |s.workers| && s.workers[w].Busy? && s.workers[w].task < |s.started|
    ensures var task := s.started[s.workers[w].task];
            && task.key in s.objs && IdAt(s, task.key) == task.taskId
            && Next(c, s, step).workers[w] == Reporting(s.workers[w].task, StateAt(s, task.key), step.ok)
  {
    hide Next, Enabled;
    CheckIs(c, s, step);
  }

  lemma WorkersShow(c: Config, s: State, front: seq<Step>, last: Step, t: State, w: nat)
    requires Run(c, s, front).Some? && Good(Run(c, s, front).value) && Orderly(Run(c, s, front).value)
    requires Outcomes(c, s, front, Run(c, s, front).value) && Enabled(c, Run(c, s, front).value, last)
    requires t == Next(c, Run(c, s, front).value, last) && w < |t.workers| && t.workers[w].Reporting?
    ensures t.workers[w].seen == "running" && Ended(c, s, front + [last], t.workers[w].task, t.workers[w].ok)
  {
    var u, steps := Run(c, s, front).value, front + [last];
    hide Run, Next, Enabled, Good, Orderly, Ended;
    ReportingMoves(c, u, last, w);
    if ChecksOf(w)(last) {
      CheckEnds(c, u, last, w);
      CheckIsEnd(c, s, front, last, w);
    } else {
      EndedBefore(c, s, front, last, t.workers[w].task, t.workers[w].ok);
    }
  }

  lemma CheckIsEnd(c: Config, s: State, front: seq<Step>, last: Step, w: nat)
    requires Run(c, s, front).Some? && ChecksOf(w)(last)
    requires w < |Run(c, s, front).value.workers| && Run(c, s, front).value.workers[w].Busy?
    ensures Ended(c, s, front + [last], Run(c, s, front).value.workers[w].task, last.ok)
  {
    var steps, n := front + [last], Run(c, s, front).value.workers[w].task;
    assert steps[..|front|] == front && steps[|front|] == last;
    hide Run;
    assert EndsAt(c, s, steps, |front|, n, last.ok);
  }

  lemma ObjectsShow(c: Config, s: State, front: seq<Step>, last: Step, t: State, n: nat, k: Key)
    requires Run(c, s, front).Some? && Good(Run(c, s, front).value) && Orderly(Run(c, s, front).value)
    requires Outcomes(c, s, front, Run(c, s, front).value) && Enabled(c, Run(c, s, front).value, last)
    requires OnTarget(Run(c, s, front).value, last) && t == Next(c, Run(c, s, front).value, last) && Good(t)
    requires n < |t.started| && k in t.objs && IdAt(t, k) == t.started[n].taskId
    ensures ShowsOutcome(c, s, front + [last], n, StateAt(t, k))
  {
    hide *;
    var u := Run(c, s, front).value;
    StartsOne(c, u, last);
    if n == |u.started| {
      NewlyStarted(c, u, last, k);
      ShowsRunning(c, s, front + [last], n);
    } else if Outside(last) {
      OutsideShows(c, s, front, last, n, k);
    } else {
      OthersShow(c, s, front, last, n, k);
    }
  }

  lemma StartsOne(c: Config, u: State, step: Step)
    requires Enabled(c, u, step)
    ensures |u.started| <= |Next(c, u, step).started| <= |u.started| + 1
    ensures Next(c, u, step).started[..|u.started|] == u.started
    ensures |Next(c, u, step).started| == |u.started| + 1 ==> Starts(u, step)
  {
    hide Next, Enabled;
    StartIs(c, u, step);
  }

  lemma ShowsRunning(c: Config, s: State, steps: seq<Step>, n: nat)
    ensures ShowsOutcome(c, s, steps, n, "running")
  {
  }

  lemma OutsideShows(c: Config, s: State, front: seq<Step>, last: Step, n: nat, k: Key)
    requires Run(c, s, front).Some? && Good(Run(c, s, front).value)
    requires Outcomes(c, s, front, Run(c, s, front).value) && Enabled(c, Run(c, s, front).value, last) && Outside(last)
    requires var u, t := Run(c, s, front).value, Next(c, Run(c, s, front).value, last);
             n < |u.started| && k in t.objs && IdAt(t, k) == u.started[n].taskId
    ensures ShowsOutcome(c, s, front + [last], n, StateAt(Next(c, Run(c, s, front).value, last), k))
  {
    hide Run, Next, Enabled, Ended, Good;
    var u := Run(c, s, front).value;
    OutsideObjects(c, u, last, k);
    StartedIds(u, n);
    ShownBefore(c, s, front, last, n, StateAt(Next(c, u, last), k));
  }

  lemma OthersShow(c: Config, s: State, front: seq<Step>, last: Step, n: nat, k: Key)
    requires Run(c, s, front).Some? && Good(Run(c, s, front).value) && Orderly(Run(c, s, front).value)
    requires Outcomes(c, s, front, Run(c, s, front).value) && Enabled(c, Run(c, s, front).value, last)
    requires OnTarget(Run(c, s, front).value, last) && !Outside(last)
    requires var u, t := Run(c, s, front).value, Next(c, Run(c, s, front).value, last);
             n < |u.started| && k in t.objs && IdAt(t, k) == u.started[n].taskId
    ensures ShowsOutcome(c, s, front + [last], n, StateAt(Next(c, Run(c, s, front).value, last), k))
  {
    hide Run, Next, Enabled, Ended, Orderly, OnTarget, Good;
    var u := Run(c, s, front).value;
    OthersSettle(c, u, last);
    ShownBefore(c, s, front, last, n, StateAt(u, k));
    if last.Patch? {
      PatchOnTarget(c, u, last, k);
      StartedIsNotPending(u, n, k);
    } else if last.Report? {
      ReporterIs(c, u, last);
      ReportOnTarget(c, u, last, k);
      ReporterShows(c, s, front, last, u, n, k);
    } else {
      AnnotationsStay(c, u, last);
    }
  }

  lemma ReporterIs(c: Config, u: State, step: Step)
    requires Enabled(c, u, step) && step.Report?
    ensures step.worker < |u.workers| && u.workers[step.worker].Reporting? && u.workers[step.worker].task < |u.started|
  {
  }

  lemma NewlyStarted(c: Config, u: State, step: Step, k: Key)
    requires Enabled(c, u, step) && Good(Next(c, u, step)) && Starts(u, step)
    requires var t := Next(c, u, step);
             |t.started| == |u.started| + 1 && k in t.objs && IdAt(t, k) == t.started[|u.started|].taskId
    ensures StateAt(Next(c, u, step), k) == "running"
  {
    hide Next, Enabled, Conserved, IdsKnown, PlansFresh;
    StartIs(c, u, step);
  }

  lemma StartedIsNotPending(u: State, n: nat, k: Key)
    requires Good(u) && n < |u.started| && k in u.objs && IdAt(u, k) == u.started[n].taskId
    ensures StateAt(u, k) != "pending"
  {
    hide Conserved, IdsKnown, PlansFresh;
  }

  /** The report of a worker shows how it ended. */
  lemma ReporterShows(c: Config, s: State, front: seq<Step>, last: Step, u: State, n: nat, k: Key)
    requires Good(u) && Outcomes(c, s, front, u) && last.Report? && Enabled(c, u, last)
    requires n < |u.started| && k in u.objs && IdAt(u, k) == u.started[n].taskId
    requires last.worker < |u.workers| && u.workers[last.worker].Reporting?
    ensures IdAt(u, k) == u.started[u.workers[last.worker].task].taskId ==>
              ShowsOutcome(c, s, front + [last], n, if u.workers[last.worker].ok then "done" else "failed")
  {
    var w := u.workers[last.worker];
    HeldIsUnfinished(u, last.worker);
    EndedBefore(c, s, front, last, w.task, w.ok);
    hide Ended, Conserved, IdsKnown, PlansFresh;
    if u.started[w.task].taskId == u.started[n].taskId {
      assert w.task == n;
    }
  }

  lemma {:induction false} OutcomesRun(c: Config, s: State, steps: seq<Step>)
    requires Quiet(s) && Run(c, s, steps).Some? && AllOnTarget(c, s, steps)
    ensures Outcomes(c, s, steps, Run(c, s, steps).value)
  {
    if steps == [] {
    } else {
      var front, last := steps[..|steps| - 1], steps[|steps| - 1];
      assert front + [last] == steps;
      OutcomesRun(c, s, front);
      QuietIsGood(s);
      GoodRun(c, s, front);
      GoodRun(c, s, steps);
      OrderlyRun(c, s, front);
      var t := Run(c, s, steps).value;
      assert OnTarget(Run(c, s, front).value, last) && t == Next(c, Run(c, s, front).value, last);
      assert Enabled(c, Run(c, s, front).value, last);
      hide *;
      OutcomesStep(c, s, front, last, t);
    }
  }

  lemma OutcomesStep(c: Config, s: State, front: seq<Step>, last: Step, t: State)
    requires Run(c, s, front).Some? && Good(Run(c, s, front).value) && Orderly(Run(c, s, front).value)
    requires Outcomes(c, s, front, Run(c, s, front).value) && Enabled(c, Run(c, s, front).value, last)
    requires OnTarget(Run(c, s, front).value, last) && t == Next(c, Run(c, s, front).value, last) && Good(t)
    ensures Outcomes(c, s, front + [last], t)
  {
    hide Run, Next, Enabled, Good, Orderly, Ended, ShowsOutcome, OnTarget;
    forall w | 0 <= w < |t.workers| && t.workers[w].Reporting?
      ensures t.workers[w].seen == "running" && Ended(c, s, front + [last], t.workers[w].task, t.workers[w].ok)
    {
      WorkersShow(c, s, front, last, t, w);
    }
    forall n, k | 0 <= n < |t.started| && k in t.objs && IdAt(t, k) == t.started[n].taskId
      ensures ShowsOutcome(c, s, front + [last], n, StateAt(t, k))
    {
      ObjectsShow(c, s, front, last, t, n, k);
    }
  }

  /**
   * Over all runs whose patches are on target: an object that carries a started task is running, or done
   * and then a worker of that task has ended without an error, or failed and then one has ended with one.
   */
  lemma OutcomeIsReal(c: Config, s: State, steps: seq<Step>, n: nat, k: Key)
    requires Quiet(s) && Run(c, s, steps).Some? && AllOnTarget(c, s, steps)
    requires var t := Run(c, s, steps).value; n < |t.started| && k in t.objs && IdAt(t, k) == t.started[n].taskId
    ensures var state := StateAt(Run(c, s, steps).value, k);
            && state in {"running", "done", "failed"}
            && (state == "done" ==> Ended(c, s, steps, n, true))
            && (state == "failed" ==> Ended(c, s, steps, n, false))
  {
    OutcomesRun(c, s, steps);
    hide Run, AllOnTarget, Quiet, Ended;
  }

  /** And the accepted report of a worker always shows it: done without an error, failed with one. */
  lemma OutcomeIsShown(c: Config, s: State, steps: seq<Step>, w: nat)
    requires Quiet(s) && Run(c, s, steps).Some? && AllOnTarget(c, s, steps)
    requires Enabled(c, Run(c, s, steps).value, Report(w, true)) && OnTarget(Run(c, s, steps).value, Report(w, true))
    requires var t := Run(c, s, steps).value; t.started[t.workers[w].task].key in t.objs
    ensures var t, u := Run(c, s, steps).value, Next(c, Run(c, s, steps).value, Report(w, true));
            var Reporting(n, _, ok) := t.workers[w];
            && Ended(c, s, steps, n, ok)
            && t.started[n].key in u.objs && IdAt(u, t.started[n].key) == t.started[n].taskId
            && StateAt(u, t.started[n].key) == if ok then "done" else "failed"
  {
    var t := Run(c, s, steps).value;
    OutcomesRun(c, s, steps);
    hide Run, AllOnTarget, Quiet, Ended;
    ReportedObjects(c, t, Report(w, true));
    hide Next;
  }

  // ---------------------------------------------------------------- which events are noticed

  lemma {:induction false} ContainsExactly(text: string, sub: string)
    ensures Contains(text, sub) <==> exists i: nat :: OccursAt(sub, text, i)
  {
    assert OccursAt(sub, text, 0) <==> sub <= text;
    if sub <= text {
    } else if text == "" {
    } else {
      ContainsExactly(text[1..], sub);
      forall i: nat | OccursAt(sub, text[1..], i)
        ensures OccursAt(sub, text, i + 1)
      {
      }
      forall i: nat | OccursAt(sub, text, i)
        ensures i > 0 && OccursAt(sub, text[1..], i - 1)
      {
      }
    }
  }

  /** An object the controller looks at: a restore node of an Elasticsearch, with a task and a state. */
  ghost predicate IsRestoreNode(c: Config, sts: StatefulSet) {
    && sts.owned && (exists i: nat :: OccursAt(c.restoreKey + "-", sts.name, i))
    && sts.ann.Some? && sts.ann.value.taskId != "" && sts.ann.value.state != ""
  }

  lemma MatchIs(c: Config, sts: StatefulSet)
    ensures Match(c.restoreKey, sts) <==> IsRestoreNode(c, sts)
  {
    ContainsExactly(sts.name, c.restoreKey + "-");
    hide Contains, OccursAt;
  }

  /** An outside write is noticed exactly when the object had annotations before and is a restore node
      afterwards: the first annotations an object gets are passed over. */
  lemma WriteIsNoticedExactly(c: Config, s: State, k: Key, taskId: string, state: string)
    requires Good(s) && Enabled(c, s, Write(k, taskId, state)) && k !in s.pending
    ensures var t := Next(c, s, Write(k, taskId, state));
            && k in t.objs && t.objs[k].ann == Some(Ann(taskId, state))
            && (k in t.pending <==> s.objs[k].ann.Some? && IsRestoreNode(c, t.objs[k]))
  {
    MatchIs(c, Next(c, s, Write(k, taskId, state)).objs[k]);
    hide Match, Conserved, StartedOnce, PlansFresh;
    assert s.objs[k].ann.Some? ==> s.objs[k].ann.value.taskId != taskId;
  }

  /** A create event is let through exactly when the object is a restore node already. */
  lemma CreateIsNoticedExactly(c: Config, s: State, k: Key)
    ensures Enabled(c, s, CreateEvent(k)) <==> k in s.objs && IsRestoreNode(c, s.objs[k])
    ensures Enabled(c, s, CreateEvent(k)) ==> k in Next(c, s, CreateEvent(k)).pending
  {
    if k in s.objs {
      MatchIs(c, s.objs[k]);
    }
    hide Match, IsRestoreNode;
  }

  // ---------------------------------------------------------------- the queue

  /** The tasks sent into the queue over a run, in order, and those received out of it. */
  function SentTasks(c: Config, s: State, steps: seq<Step>): seq<nat>
    requires Run(c, s, steps).Some?
  {
    if steps == [] then []
    else
      var front, last := steps[..|steps| - 1], steps[|steps| - 1];
      var t := Run(c, s, front).value;
      SentTasks(c, s, front)
      + if last.Send? && last.call < |t.calls| && t.calls[last.call].Sending? then [t.calls[last.call].task] else []
  }

  function ReceivedTasks(c: Config, s: State, steps: seq<Step>): seq<nat>
    requires Run(c, s, steps).Some?
  {
    if steps == [] then []
    else
      var front, last := steps[..|steps| - 1], steps[|steps| - 1];
      var t := Run(c, s, steps).value;
      ReceivedTasks(c, s, front)
      + if last.Receive? && last.worker < |t.workers| && t.workers[last.worker].Busy?
        then [t.workers[last.worker].task] else []
  }

  /** In every run tasks are received in the order in which they were sent; the queue is the rest. */
  lemma {:induction false} ReceivedInOrder(c: Config, s: State, steps: seq<Step>)
    requires Quiet(s) && Run(c, s, steps).Some?
    ensures SentTasks(c, s, steps) == ReceivedTasks(c, s, steps) + Run(c, s, steps).value.queue
  {
    hide Enabled, Next;
    if steps == [] {
    } else {
      var front, last := steps[..|steps| - 1], steps[|steps| - 1];
      ReceivedInOrder(c, s, front);
      var t, u := Run(c, s, front).value, Run(c, s, steps).value;
      if CallStep(last) {
        CallParts(c, t, last);
      } else if WorkerStep(last) {
        WorkerParts(c, t, last);
        assert last.Receive? ==> t.queue == [t.queue[0]] + u.queue;
      } else {
        OutsideParts(c, t, last);
      }
    }
  }

  /** A send goes on exactly while the buffer has room, and a waiting worker receives what is queued. */
  lemma QueueBlocksExactly(c: Config, s: State, i: nat, w: nat)
    ensures i < |s.calls| && s.calls[i].Sending? ==> (Enabled(c, s, Send(i)) <==> |s.queue| < c.capacity)
    ensures w < |s.workers| && s.workers[w].Waiting? ==> (Enabled(c, s, Receive(w)) <==> s.queue != [])
  {
  }

  // ---------------------------------------------------------------- what a read decides

  /** A call that reads plans the task it finds pending on a ready object, brings its key back when the
      read fails, and otherwise ends. */
  lemma ReadDecidesExactly(c: Config, s: State, i: nat, ok: bool)
    requires Enabled(c, s, Read(i, ok))
    ensures var t, key := Next(c, s, Read(i, ok)), s.calls[i].key;
            && t.calls[i] == (if ok && key in s.objs && s.objs[key].ready && StateAt(s, key) == "pending"
                              then Planned(key, IdAt(s, key)) else Free)
            && t.pending == (if ok then s.pending else s.pending + {key})
  {
    hide Next, Enabled, Bump;
    ReadIs(c, s, Read(i, ok));
    match Plan(s.objs, s.calls[i].key)
    case None =>
    case Some(_) =>
  }

  /** A call that patches starts what it planned, or brings its key back when the patch fails. */
  lemma PatchDecidesExactly(c: Config, s: State, i: nat, ok: bool)
    requires Enabled(c, s, Patch(i, ok))
    ensures var t, key := Next(c, s, Patch(i, ok)), s.calls[i].key;
            if ok && key in s.objs
            then t.calls[i] == Sending(key, |s.started|) && t.started == s.started + [Task(s.calls[i].taskId, key)]
            else t.calls[i] == Free && t.started == s.started && key in t.pending
  {
    hide Next, Enabled, FilterUpdate, Patched, Bump;
    PatchIs(c, s, Patch(i, ok));
  }

  /** A worker that has ended will report if it reads its own task on the object, whatever else is there;
      otherwise it is finished with the task. */
  lemma CheckDecidesExactly(c: Config, s: State, w: nat, ok: bool, readOk: bool)
    requires Enabled(c, s, Check(w, ok, readOk))
    ensures var t, n := Next(c, s, Check(w, ok, readOk)), s.workers[w].task;
            var task := s.started[n];
            if readOk && task.key in s.objs && IdAt(s, task.key) == task.taskId
            then t.workers[w] == Reporting(n, StateAt(s, task.key), ok) && t.finished == s.finished
            else t.workers[w] == Waiting && t.finished == s.finished + [n]
  {
    CheckIs(c, s, Check(w, ok, readOk));
    hide Next, Enabled;
  }
}
