/** What the owner test of Reconcile lets through: exactly when some run ever sends a task. */
module PipelineOwner {
  import opened SizeText
  import opened Quantities
  import opened NodeSets
  import opened Polling
  import opened Pipeline
  import opened PipelineParts
  import opened PipelineArrivals

  /** The answers the StatefulSet checks of a run get. */
  predicate Answered(steps: seq<Step>, answers: set<StatefulSet>) {
    forall n | 0 <= n < |steps| && steps[n].CheckNode? :: steps[n].sts in answers
  }

  /** Nothing has been sent, and no call has come to its send. */
  predicate NothingSent(s: State) {
    s.sends == [] && forall i | 0 <= i < |s.calls| :: !s.calls[i].Sending?
  }

  lemma NothingSentStep(c: Config, s: State, step: Step)
    requires NothingSent(s) && Enabled(c, s, step)
    requires step.CheckNode? ==> step.sts != Found(c.code.ownerFixed, true)
    ensures NothingSent(Next(c, s, step))
  {
    SendsMove(c, s, step);
    CallsMove(c, s, step);
    if step.CheckNode? {
      CheckTurnsAway(c, s, step);
    } else if CallStep(step) {
      SeenMoves(c, s, step);
    }
    hide Next, EnsureNode;
  }

  lemma CheckTurnsAway(c: Config, s: State, step: Step)
    requires Enabled(c, s, step) && step.CheckNode? && step.sts != Found(c.code.ownerFixed, true)
    ensures step.call < |s.calls| == |Next(c, s, step).calls| && Next(c, s, step).calls[step.call].Free?
  {
  }

  lemma {:induction false} NothingSentRun(c: Config, s: State, steps: seq<Step>, answers: set<StatefulSet>)
    requires NothingSent(s) && Run(c, s, steps).Some? && Answered(steps, answers)
    requires Found(c.code.ownerFixed, true) !in answers
    ensures NothingSent(Run(c, s, steps).value)
  {
    hide NothingSent, Enabled, Next;
    if steps == [] {
    } else {
      var front := steps[..|steps| - 1];
      assert forall n | 0 <= n < |front| :: front[n] == steps[n];
      NothingSentRun(c, s, front, answers);
      NothingSentStep(c, Run(c, s, front).value, steps[|steps| - 1]);
    }
  }

  /** As written, where Elasticsearch owns every StatefulSet found, no run ever sends a task. */
  lemma NothingIsEverSent(c: Config, reconcilers: nat, bound: seq<bool>, sets: seq<NodeSet>, steps: seq<Step>)
    requires !c.code.ownerFixed && Run(c, Init(reconcilers, bound, sets), steps).Some?
    requires forall n | 0 <= n < |steps| && steps[n].CheckNode? :: steps[n].sts.Missing? || steps[n].sts.owned
    ensures NothingSent(Run(c, Init(reconcilers, bound, sets), steps).value)
    ensures Run(c, Init(reconcilers, bound, sets), steps).value.pool.workers == []
  {
    var start, answers := Init(reconcilers, bound, sets), {Missing, Found(true, true), Found(true, false)};
    hide Run, Init;
    assert Answered(steps, answers);
    assert Found(c.code.ownerFixed, true) !in answers;
    StartIsIdle(reconcilers, bound, sets);
    hide Answered;
    NothingSentRun(c, start, steps, answers);
    NobodyWorksRun(c, start, steps, answers);
  }

  lemma StartIsIdle(reconcilers: nat, bound: seq<bool>, sets: seq<NodeSet>)
    ensures NothingSent(Init(reconcilers, bound, sets)) && NobodyWorks(Init(reconcilers, bound, sets))
  {
  }

  /** Without a task sent nothing is queued, held or run. */
  predicate NobodyWorks(s: State) {
    && s.pool.queue == [] && s.pool.workers == []
    && forall d | 0 <= d < |s.pool.dispatchers| :: !s.pool.dispatchers[d].Holding?
  }

  lemma NobodyWorksStep(c: Config, s: State, step: Step)
    requires NobodyWorks(s) && NothingSent(s) && Enabled(c, s, step)
    ensures NobodyWorks(Next(c, s, step))
  {
    if OutsideStep(step) {
      OutsideParts(c, s, step);
      hide Next;
    } else if CallStep(step) {
      CallEffects(c, s, step);
      hide Next;
    } else {
      hide Lookup;
    }
  }

  lemma {:induction false} NobodyWorksRun(c: Config, s: State, steps: seq<Step>, answers: set<StatefulSet>)
    requires NobodyWorks(s) && NothingSent(s) && Run(c, s, steps).Some? && Answered(steps, answers)
    requires Found(c.code.ownerFixed, true) !in answers
    ensures NobodyWorks(Run(c, s, steps).value)
  {
    hide NothingSent, NobodyWorks, Enabled, Next;
    if steps == [] {
    } else {
      var front := steps[..|steps| - 1];
      assert forall n | 0 <= n < |front| :: front[n] == steps[n];
      NobodyWorksRun(c, s, front, answers);
      NothingSentRun(c, s, front, answers);
      NobodyWorksStep(c, Run(c, s, front).value, steps[|steps| - 1]);
    }
  }

  // ---------------------------------------------------------------- the exact condition

  /** Some run with these answers to its checks sends a task. */
  ghost predicate CanSend(c: Config, reconcilers: nat, answers: set<StatefulSet>) {
    exists bound: seq<bool>, sets: seq<NodeSet>, steps: seq<Step> ::
      SendsIn(c, Init(reconcilers, bound, sets), steps, answers)
  }

  predicate SendsIn(c: Config, s: State, steps: seq<Step>, answers: set<StatefulSet>) {
    Answered(steps, answers) && Run(c, s, steps).Some? && Run(c, s, steps).value.sends != []
  }

  lemma PassesOnly(c: Config, size: string, inner: seq<Step>, answers: set<StatefulSet>)
    requires Inner(c, inner) && Found(c.code.ownerFixed, true) in answers
    ensures Answered(ArriveSteps(0, "a", "x", size) + inner, answers)
  {
  }

  /** A new task with a published size, checked with the one answer that passes, is sent. */
  lemma OneTaskIsSent(c: Config, n: nat, answers: set<StatefulSet>, x: real)
    requires x >= 0.0 && n >= 1 && Found(c.code.ownerFixed, true) in answers
    ensures CanSend(c, n, answers)
  {
    hide FormatGi, QuantityBytes, Run, Init, SentState, Arrived, Idling, Waits, EnsureFor, Inner, ArriveSteps;
    var size := FormatGi(x);
    PublishedSizeIsStored(x);
    var inner := FirstTaskIsSent(c, n, size);
    var steps := ArriveSteps(0, "a", "x", size) + inner;
    PassesOnly(c, size, inner, answers);
    hide Answered;
    assert SendsIn(c, Init(n, [false], []), steps, answers);
  }

  /**
   * The owner test decides: some run ever sends a task exactly when some check is answered with a
   * ready StatefulSet that, as written, Elasticsearch does not own, or, repaired, that it does.
   */
  lemma OwnerTestDecides(c: Config, reconcilers: nat, answers: set<StatefulSet>)
    requires reconcilers >= 1
    ensures CanSend(c, reconcilers, answers) <==> Found(c.code.ownerFixed, true) in answers
  {
    hide CanSend;
    if Found(c.code.ownerFixed, true) in answers {
      OneTaskIsSent(c, reconcilers, answers, 0.0);
    } else if CanSend(c, reconcilers, answers) {
      SendingNeeds(c, reconcilers, answers);
    }
  }

  lemma SendingNeeds(c: Config, reconcilers: nat, answers: set<StatefulSet>)
    requires CanSend(c, reconcilers, answers)
    ensures Found(c.code.ownerFixed, true) in answers
  {
    var bound: seq<bool>, sets: seq<NodeSet>, steps: seq<Step> :|
      SendsIn(c, Init(reconcilers, bound, sets), steps, answers);
    hide Run;
    if Found(c.code.ownerFixed, true) !in answers {
      NothingSentRun(c, Init(reconcilers, bound, sets), steps, answers);
    }
  }
}
