/** How often the annotation state machine runs for one object, and how a task comes to be stranded. */
module AnnotationCounts {
  import opened Annotations
  import opened AnnotationRuns
  import opened AnnotationPatches

  /** Every write of the controller on a matching object passes its own filter and brings it back. */
  lemma OwnWritesComeBack(restoreKey: string, before: StatefulSet, state: string)
    requires Match(restoreKey, before) && state != "" && state != before.ann.value.state
    ensures FilterUpdate(restoreKey, before, InState(before, state))
  {
  }

  // ---------------------------------------------------------------- what is still to come

  function StartedFor(s: State, k: Key): set<nat> {
    set n: nat | n < |s.started| && s.started[n].key == k
  }

  function UnfinishedFor(s: State, k: Key): set<nat> {
    set n: nat | n < |s.started| && s.started[n].key == k && n !in s.finished
  }

  /** The object is pending, or a call has read it so. */
  predicate Awaits(s: State, k: Key) {
    || (k in s.objs && StateAt(s, k) == PENDING)
    || exists i | 0 <= i < |s.calls| :: s.calls[i].Planned? && s.calls[i].key == k
  }

  function One(b: bool): nat {
    if b then 1 else 0
  }

  /** Reconcile runs for the object so far, and those to come from the work queue, from a pending
      state and from unfinished tasks. */
  function Debt(s: State, k: Key): nat {
    Count(s.runs, k) + One(k in s.pending) + 2 * One(Awaits(s, k)) + |UnfinishedFor(s, k)|
  }

  function Credit(s: State, k: Key): nat {
    Count(s.creates, k) + Count(s.failures, k) + 3 * Count(s.writes, k)
  }

  predicate Paid(s: State, k: Key) {
    && Debt(s, k) <= Credit(s, k)
    && |StartedFor(s, k)| + One(Awaits(s, k)) <= Count(s.writes, k)
  }

  lemma SubsetSize<T>(a: set<T>, b: set<T>)
    requires a <= b
    ensures |a| <= |b|
  {
    assert a + (b - a) == b;
  }

  // ---------------------------------------------------------------- what each step does to it

  /** The step is the failure of a request Reconcile makes for the object. */
  predicate Fails(s: State, step: Step, k: Key) {
    && (step.Read? || step.Patch?) && step.call < |s.calls| && s.calls[step.call] != Free && s.calls[step.call].key == k
    && (if step.Read? then !step.readOk else !Starts(s, step))
  }

  predicate StartsFor(s: State, step: Step, k: Key) {
    Starts(s, step) && s.calls[step.call].key == k
  }

  /** A call counts its run or its failure; only a failure or a start brings its key back. */
  lemma CallCounts(c: Config, s: State, step: Step)
    requires Enabled(c, s, step) && CallStep(step)
    ensures CallCounted(s, Next(c, s, step), step)
  {
    if step.Patch? {
      PatchCounts(c, s, step);
    } else if step.Read? {
      ReadCounts(c, s, step);
    } else {
      hide FilterUpdate, Plan, Patched, InCall, Bump;
    }
    hide AfterRead, AfterPatch, Bump, CallCounted, InCall;
  }

  predicate CallCounted(s: State, t: State, step: Step)
    requires CallStep(step) && step.call < |s.calls| && (step.Take? || s.calls[step.call] != Free)
  {
    var key := if step.Take? then step.key else s.calls[step.call].key;
    && t.writes == s.writes && t.creates == s.creates
    && t.runs == (if step.Take? then Bump(s.runs, key) else s.runs)
    && t.failures == (if Fails(s, step, key) then Bump(s.failures, key) else s.failures)
    && (step.Take? ==> key in s.pending && t.pending == s.pending - {key})
    && (!step.Take? ==> s.pending <= t.pending <= s.pending + {key})
    && (t.pending != s.pending ==> step.Take? || Fails(s, step, key) || Starts(s, step))
  }

  lemma PatchCounts(c: Config, s: State, step: Step)
    requires Enabled(c, s, step) && step.Patch?
    ensures CallCounted(s, Next(c, s, step), step)
  {
    PatchIs(c, s, step);
    hide Next, Enabled, FilterUpdate, Patched, Bump, InCall;
  }

  lemma ReadCounts(c: Config, s: State, step: Step)
    requires Enabled(c, s, step) && step.Read?
    ensures CallCounted(s, Next(c, s, step), step)
  {
    hide Next, Enabled, Plan, Bump, Starts, InCall, FilterUpdate, FilterCreate;
    ReadIs(c, s, step);
    match Plan(s.objs, s.calls[step.call].key)
    case None =>
    case Some(_) =>
  }

  /** A worker counts nothing; only its report brings the key of its task back. */
  lemma WorkerCounts(c: Config, s: State, step: Step)
    requires Enabled(c, s, step) && WorkerStep(step)
    ensures var t := Next(c, s, step);
            && t.writes == s.writes && t.creates == s.creates && t.runs == s.runs && t.failures == s.failures
            && (!step.Report? ==> t.pending == s.pending)
            && (step.Report? ==> t.pending <= s.pending + {s.started[s.workers[step.worker].task].key})
  {
    if step.Report? {
      ReportCounts(c, s, step);
    } else {
      CheckCounts(c, s, step);
    }
    hide Next;
  }

  predicate StillCounted(s: State, t: State) {
    t.writes == s.writes && t.creates == s.creates && t.runs == s.runs && t.failures == s.failures
  }

  lemma ReportCounts(c: Config, s: State, step: Step)
    requires Enabled(c, s, step) && step.Report?
    ensures StillCounted(s, Next(c, s, step))
    ensures Next(c, s, step).pending <= s.pending + {s.started[s.workers[step.worker].task].key}
  {
    ReportIs(c, s, step);
    hide Next, Enabled, FilterUpdate, Patched;
  }

  lemma CheckCounts(c: Config, s: State, step: Step)
    requires Enabled(c, s, step) && (step.Check? || step.Receive?)
    ensures StillCounted(s, Next(c, s, step)) && Next(c, s, step).pending == s.pending
  {
    if step.Check? {
      CheckIs(c, s, step);
      hide Next, Enabled, Guard;
    } else {
      hide AfterRead, AfterPatch, AfterCheck, AfterReport, Changed, Requeued, InCall;
    }
  }

  lemma OutsideCounts(c: Config, s: State, step: Step)
    requires Enabled(c, s, step) && !CallStep(step) && !WorkerStep(step)
    ensures var t := Next(c, s, step);
            && t.writes == (if step.Write? then Bump(s.writes, step.key) else s.writes)
            && t.creates == (if step.CreateEvent? then Bump(s.creates, step.key) else s.creates)
            && t.runs == s.runs && t.failures == s.failures
            && t.pending <= s.pending + {step.key}
            && (!step.Write? && !step.CreateEvent? ==> t.pending == s.pending)
  {
    hide FilterCreate, Match, Bump;
  }

  lemma CountersMove(c: Config, s: State, step: Step, k: Key)
    requires Enabled(c, s, step)
    ensures var t := Next(c, s, step);
            && Count(t.writes, k) == Count(s.writes, k) + One(step.Write? && step.key == k)
            && Count(t.creates, k) == Count(s.creates, k) + One(step.CreateEvent? && step.key == k)
            && Count(t.runs, k) == Count(s.runs, k) + One(step.Take? && step.key == k)
            && Count(t.failures, k) == Count(s.failures, k) + One(Fails(s, step, k))
  {
    if CallStep(step) {
      CallCounts(c, s, step);
    } else if WorkerStep(step) {
      WorkerCounts(c, s, step);
    } else {
      OutsideCounts(c, s, step);
    }
    hide Next, Enabled, Count, Starts;
  }

  /** How a key comes into the work queue. */
  lemma QueueMoves(c: Config, s: State, step: Step, k: Key)
    requires Enabled(c, s, step)
    ensures var t := Next(c, s, step);
            && (k in t.pending && k !in s.pending ==>
                  || (step.Write? && step.key == k) || (step.CreateEvent? && step.key == k)
                  || Fails(s, step, k) || StartsFor(s, step, k)
                  || (step.Report? && s.started[s.workers[step.worker].task].key == k))
            && (step.Take? && step.key == k ==> k in s.pending && k !in t.pending)
  {
    if CallStep(step) {
      CallCounts(c, s, step);
    } else if WorkerStep(step) {
      WorkerCounts(c, s, step);
    } else {
      OutsideCounts(c, s, step);
    }
    hide Next, Count;
  }

  lemma AwaitsMoves(c: Config, s: State, step: Step, k: Key)
    requires Enabled(c, s, step)
    ensures Awaits(Next(c, s, step), k) ==> Awaits(s, k) || (step.Write? && step.key == k)
  {
    var t := Next(c, s, step);
    if Outside(step) {
      hide FilterUpdate;
      OutsideParts(c, s, step);
    } else {
      hide Next, Enabled;
      OthersSettle(c, s, step);
      if i :| 0 <= i < |t.calls| && t.calls[i].Planned? && t.calls[i].key == k {
        PlannedMoves(c, s, step, i);
        if ReadsOf(i)(step) {
          ReadPlans(c, s, step, i);
        }
      }
    }
  }

  /** A task of the object is started where it was awaited, and then nothing of it is. */
  lemma StartEndsWait(c: Config, s: State, step: Step, k: Key)
    requires Good(s) && Enabled(c, s, step) && StartsFor(s, step, k)
    ensures Awaits(s, k) && !Awaits(Next(c, s, step), k)
  {
    hide Next, Enabled, Conserved;
    StartIs(c, s, step);
  }

  lemma StartedMoves(c: Config, s: State, step: Step, k: Key)
    requires Enabled(c, s, step)
    ensures var t := Next(c, s, step);
            && |StartedFor(t, k)| == |StartedFor(s, k)| + One(StartsFor(s, step, k))
            && |UnfinishedFor(t, k)| <= |UnfinishedFor(s, k)| + One(StartsFor(s, step, k))
  {
    var t := Next(c, s, step);
    StartIs(c, s, step);
    FinishedGrows(c, s, step);
    hide Next, Enabled;
    if Starts(s, step) {
      OneMoreStarted(s, t, s.calls[step.call].key, k);
    } else {
      NoMoreStarted(s, t, k);
    }
    hide StartedFor, UnfinishedFor;
  }

  lemma OneMoreStarted(s: State, t: State, key: Key, k: Key)
    requires |t.started| == |s.started| + 1 && s.started <= t.started && t.started[|s.started|].key == key
    requires forall n | n in s.finished :: n in t.finished
    ensures |StartedFor(t, k)| == |StartedFor(s, k)| + One(key == k)
    ensures |UnfinishedFor(t, k)| <= |UnfinishedFor(s, k)| + One(key == k)
  {
    if key == k {
      assert StartedFor(t, k) == StartedFor(s, k) + {|s.started|};
      SubsetSize(UnfinishedFor(t, k), UnfinishedFor(s, k) + {|s.started|});
    } else {
      assert StartedFor(t, k) == StartedFor(s, k);
      SubsetSize(UnfinishedFor(t, k), UnfinishedFor(s, k));
    }
  }

  lemma NoMoreStarted(s: State, t: State, k: Key)
    requires t.started == s.started && forall n | n in s.finished :: n in t.finished
    ensures StartedFor(t, k) == StartedFor(s, k) && |UnfinishedFor(t, k)| <= |UnfinishedFor(s, k)|
  {
    SubsetSize(UnfinishedFor(t, k), UnfinishedFor(s, k));
  }

  lemma ReportFinishes(c: Config, s: State, step: Step)
    requires Good(s) && Enabled(c, s, step) && step.Report?
    ensures var k := s.started[s.workers[step.worker].task].key;
            |UnfinishedFor(Next(c, s, step), k)| < |UnfinishedFor(s, k)|
  {
    var t, n := Next(c, s, step), s.workers[step.worker].task;
    WorkerParts(c, s, step);
    HeldIsUnfinished(s, step.worker);
    hide Next, Enabled, Good;
    assert n in UnfinishedFor(s, s.started[n].key) && n in t.finished;
    SubsetSize(UnfinishedFor(t, s.started[n].key), UnfinishedFor(s, s.started[n].key) - {n});
  }

  lemma PaidStep(c: Config, s: State, step: Step, k: Key)
    requires Good(s) && Paid(s, k) && Enabled(c, s, step)
    ensures Paid(Next(c, s, step), k)
  {
    hide Next, Good, Awaits, UnfinishedFor, StartedFor, Count;
    CountersMove(c, s, step, k);
    QueueMoves(c, s, step, k);
    AwaitsMoves(c, s, step, k);
    if StartsFor(s, step, k) {
      StartEndsWait(c, s, step, k);
    }
    StartedMoves(c, s, step, k);
    if step.Report? {
      ReportFinishes(c, s, step);
    }
    hide Enabled;
  }

  lemma {:induction false} PaidRun(c: Config, s: State, steps: seq<Step>, k: Key)
    requires Good(s) && Paid(s, k) && Run(c, s, steps).Some?
    ensures Paid(Run(c, s, steps).value, k)
  {
    hide Good, Paid, Next, Enabled;
    if steps == [] {
    } else {
      var front := steps[..|steps| - 1];
      PaidRun(c, s, front, k);
      GoodRun(c, s, front);
      PaidStep(c, Run(c, s, front).value, steps[|steps| - 1], k);
    }
  }

  /**
   * For each object: Reconcile runs at most three times for each outside write to it, and once for
   * each of its create events and of its failed requests; at most one task is started for each write.
   */
  lemma WritesCauseFewRuns(c: Config, s: State, steps: seq<Step>, k: Key)
    requires Quiet(s) && Run(c, s, steps).Some?
    ensures var t := Run(c, s, steps).value;
            && Count(t.runs, k) <= 3 * Count(t.writes, k) + Count(t.creates, k) + Count(t.failures, k)
            && |StartedFor(t, k)| <= Count(t.writes, k)
  {
    QuietIsGood(s);
    QuietIsPaid(s, k);
    PaidRun(c, s, steps, k);
    hide Good, Run;
  }

  lemma QuietIsPaid(s: State, k: Key)
    requires Quiet(s)
    ensures Paid(s, k)
  {
    assert UnfinishedFor(s, k) == {} && StartedFor(s, k) == {};
  }

  // ---------------------------------------------------------------- a pending write can be stranded

  /** A worker about to patch the object. */
  predicate Guarded(s: State, k: Key) {
    exists w | 0 <= w < |s.workers| ::
      s.workers[w].Reporting? && s.workers[w].task < |s.started| && s.started[s.workers[w].task].key == k
  }

  /** A pending write nobody is going to look at, nor to overrun. */
  predicate Stranded(s: State, k: Key) {
    && k in s.objs && StateAt(s, k) == PENDING
    && k !in s.pending
    && (forall i | 0 <= i < |s.calls| :: s.calls[i] != Taken(k) && !(s.calls[i].Planned? && s.calls[i].key == k))
    && !Guarded(s, k)
  }

  predicate Touches(step: Step, k: Key) {
    (step.Write? || step.CreateEvent? || step.Delete?) && step.key == k
  }

  /** A Reconcile that finds the object not ready leaves the pending write stranded, unless a worker
      is just about to overrun it. */
  lemma NotReadyIsConsumed(c: Config, s: State, i: nat)
    requires Good(s) && Enabled(c, s, Read(i, true))
    requires var k := s.calls[i].key;
             k in s.objs && StateAt(s, k) == PENDING && !s.objs[k].ready && k !in s.pending
    ensures Stranded(Next(c, s, Read(i, true)), s.calls[i].key) <==> !Guarded(s, s.calls[i].key)
  {
    var t, k := Next(c, s, Read(i, true)), s.calls[i].key;
    assert t.workers == s.workers && t.started == s.started;
    assert Guarded(t, k) <==> Guarded(s, k);
    hide Conserved, IdsKnown, StartedOnce, Guarded;
  }

  /** Nobody comes to plan or guard a stranded object. */
  lemma StrandedAlone(c: Config, s: State, step: Step, k: Key)
    requires Good(s) && Stranded(s, k) && Enabled(c, s, step) && !Touches(step, k)
    ensures var t := Next(c, s, step);
            && (forall i | 0 <= i < |t.calls| ::
                  t.calls[i] != Taken(k) && !(t.calls[i].Planned? && t.calls[i].key == k))
            && !Guarded(t, k)
            && k !in t.pending
            && !StartsFor(s, step, k)
  {
    var t := Next(c, s, step);
    forall i | 0 <= i < |t.calls|
      ensures t.calls[i] != Taken(k) && !(t.calls[i].Planned? && t.calls[i].key == k)
    {
      StrandedCall(c, s, step, k, i);
    }
    forall w | 0 <= w < |t.workers| && t.workers[w].Reporting? && t.workers[w].task < |t.started|
      ensures t.started[t.workers[w].task].key != k
    {
      StrandedWorker(c, s, step, k, w);
    }
    StrandedQueue(c, s, step, k);
    hide Next, Good, Enabled;
  }

  lemma StrandedQueue(c: Config, s: State, step: Step, k: Key)
    requires Stranded(s, k) && Enabled(c, s, step) && !Touches(step, k)
    ensures k !in Next(c, s, step).pending && !StartsFor(s, step, k)
  {
    QueueMoves(c, s, step, k);
    assert step.Report? ==> s.workers[step.worker].Reporting?;
    hide Next;
    assert !Fails(s, step, k);
  }

  lemma StrandedCall(c: Config, s: State, step: Step, k: Key, i: nat)
    requires Stranded(s, k) && Enabled(c, s, step) && i < |Next(c, s, step).calls|
    ensures Next(c, s, step).calls[i] != Taken(k)
    ensures !(Next(c, s, step).calls[i].Planned? && Next(c, s, step).calls[i].key == k)
  {
    var t := Next(c, s, step);
    if CallStep(step) {
      CallParts(c, s, step);
      assert step.Take? ==> step.key in s.pending;
    } else if WorkerStep(step) {
      WorkerParts(c, s, step);
    } else {
      OutsideParts(c, s, step);
    }
    if t.calls[i].Planned? {
      PlannedMoves(c, s, step, i);
      if ReadsOf(i)(step) {
        ReadPlans(c, s, step, i);
      }
    }
    hide Next, Guarded;
  }

  lemma StrandedWorker(c: Config, s: State, step: Step, k: Key, w: nat)
    requires Good(s) && Stranded(s, k) && Enabled(c, s, step) && !Touches(step, k)
    requires w < |Next(c, s, step).workers| && Next(c, s, step).workers[w].Reporting?
    requires Next(c, s, step).workers[w].task < |Next(c, s, step).started|
    ensures Next(c, s, step).started[Next(c, s, step).workers[w].task].key != k
  {
    ReportingMoves(c, s, step, w);
    if ChecksOf(w)(step) {
      WorkersElsewhere(c, s, step);
      CheckReads(c, s, step, w);
    }
    hide Next, Enabled, Conserved, PlansFresh;
  }

  lemma StrandedStep(c: Config, s: State, step: Step, k: Key)
    requires Good(s) && Stranded(s, k) && Enabled(c, s, step) && !Touches(step, k)
    ensures Stranded(Next(c, s, step), k)
    ensures Next(c, s, step).objs[k].ann == s.objs[k].ann
    ensures StartedFor(Next(c, s, step), k) == StartedFor(s, k)
  {
    StrandedAlone(c, s, step, k);
    StrandedObject(c, s, step, k);
    StartIs(c, s, step);
    StartedForOthers(s, Next(c, s, step), step, k);
    hide Next, Enabled, Good, StartedFor, StartsFor, Touches;
  }

  lemma StartedForOthers(s: State, t: State, step: Step, k: Key)
    requires !StartsFor(s, step, k)
    requires if Starts(s, step) then t.started == s.started + [Task(s.calls[step.call].taskId, s.calls[step.call].key)]
             else t.started == s.started
    ensures StartedFor(t, k) == StartedFor(s, k)
  {
  }

  lemma StrandedObject(c: Config, s: State, step: Step, k: Key)
    requires Stranded(s, k) && Enabled(c, s, step) && !Touches(step, k)
    ensures k in Next(c, s, step).objs && Next(c, s, step).objs[k].ann == s.objs[k].ann
  {
    if step.Patch? {
      PatchedObjects(c, s, step);
      hide Next;
    } else if step.Report? {
      assert s.workers[step.worker].Reporting?;
      ReportedObjects(c, s, step);
      hide Next;
    } else if step.Write? || step.Create? || step.SetReady? || step.Delete? {
      hide FilterUpdate, Guarded;
    } else {
      NothingPatched(c, s, step);
      hide Next, Guarded;
    }
  }

  /**
   * Stranded it stays, becoming ready or not: in no run without another write, create event or
   * deletion of the object do its annotations change or is a task started for it.
   */
  lemma {:induction false} StrandedStays(c: Config, s: State, steps: seq<Step>, k: Key)
    requires Good(s) && Stranded(s, k) && Run(c, s, steps).Some?
    requires forall i | 0 <= i < |steps| :: !Touches(steps[i], k)
    ensures var t := Run(c, s, steps).value;
            && Stranded(t, k)
            && t.objs[k].ann == s.objs[k].ann
            && StartedFor(t, k) == StartedFor(s, k)
  {
    hide Good, Next, Enabled, Stranded, Touches, StartedFor;
    if steps == [] {
    } else {
      var front, last := steps[..|steps| - 1], steps[|steps| - 1];
      assert forall i | 0 <= i < |front| :: front[i] == steps[i];
      StrandedStays(c, s, front, k);
      GoodRun(c, s, front);
      StrandedStep(c, Run(c, s, front).value, last, k);
    }
  }
}
