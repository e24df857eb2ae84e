/**
 * Node storage over whole runs of the restore pipeline: exactly when some run without other writers
 * lowers a claim or drops a node set.
 */
module PipelineStorage {
  import opened Wrappers
  import opened Quantities
  import opened SizeText
  import opened NodeSets
  import opened Pipeline
  import opened PipelineParts
  import opened PipelineArrivals
  import opened PipelineRuns
  import opened Service

  // ---------------------------------------------------------------- what keeps storage

  /** No other writer edits node sets, and resources ask for the given sizes. */
  ghost predicate Undisturbed(steps: seq<Step>, sizes: iset<string>) {
    forall n | 0 <= n < |steps| :: Allowed(steps[n], sizes)
  }

  ghost predicate Allowed(step: Step, sizes: iset<string>) {
    !step.EditNodes? && AsksFor(step, sizes)
  }

  ghost predicate AsksFor(step: Step, sizes: iset<string>) {
    step.CreateCR? ==> step.size in sizes
  }

  ghost predicate SizesKnown(s: State, sizes: iset<string>) {
    && (forall k | k in s.crs :: s.crs[k].size in sizes)
    && (forall i | 0 <= i < |s.calls| && Carries(s.calls[i]) :: s.calls[i].cr.size in sizes)
    && (forall t | 0 <= t < |s.sends| :: s.sends[t].cr.size in sizes)
  }

  lemma SizesStep(c: Config, s: State, step: Step, sizes: iset<string>)
    requires SizesKnown(s, sizes) && Enabled(c, s, step) && AsksFor(step, sizes)
    ensures SizesKnown(Next(c, s, step), sizes)
  {
    var t := Next(c, s, step);
    ResourcesMove(c, s, step);
    SendsMove(c, s, step);
    forall i | 0 <= i < |t.calls| && Carries(t.calls[i])
      ensures t.calls[i].cr.size in sizes
    {
      CopyMoves(c, s, step, i);
    }
    hide Next, Enabled;
  }

  /** Node sets change by edits and accepted patches only, to the list the patch was planned for. */
  lemma NodeSetsMove(c: Config, s: State, step: Step)
    requires Enabled(c, s, step) && !step.EditNodes?
    ensures Next(c, s, step).nodeSets != s.nodeSets ==>
              && step.PatchCluster? && step.call < |s.calls| && s.calls[step.call].Planned?
              && var Planned(_, cr, snapshot) := s.calls[step.call];
                 && EnsureNode(snapshot, cr.node, cr.size, c.nodeCount, c.code.resize).Ok?
                 && Next(c, s, step).nodeSets
                    == EnsureNode(snapshot, cr.node, cr.size, c.nodeCount, c.code.resize).value.0
                 && Next(c, s, step).nodeSets != snapshot
  {
    if step.PatchCluster? {
      hide EnsureNode;
    } else {
      SetsElsewhere(c, s, step);
      hide Next, Enabled;
    }
  }

  lemma CoversItself(sets: seq<NodeSet>)
    ensures Covers(sets, sets)
  {
  }

  lemma CoversTransitive(a: seq<NodeSet>, b: seq<NodeSet>, d: seq<NodeSet>)
    requires Covers(b, a) && Covers(d, b)
    ensures Covers(d, a)
  {
  }

  /** At most one Reconcile goroutine, and what it plans is on the list as it is. */
  predicate PlansAreCurrent(s: State) {
    && |s.calls| <= 1
    && forall i | 0 <= i < |s.calls| && s.calls[i].Planned? :: s.calls[i].snapshot == s.nodeSets
  }

  lemma CurrentStep(c: Config, s: State, step: Step)
    requires PlansAreCurrent(s) && Enabled(c, s, step) && !step.EditNodes?
    ensures PlansAreCurrent(Next(c, s, step))
  {
    CallsMove(c, s, step);
    if CallStep(step) {
      SeenMoves(c, s, step);
    }
    if !step.PatchCluster? {
      SetsElsewhere(c, s, step);
    }
    hide Next, Enabled, EnsureNode;
  }

  /** One goroutine, and sizes that are growing, or the resize as written. */
  lemma CurrentPlanKeeps(c: Config, s: State, step: Step, sizes: iset<string>)
    requires PlansAreCurrent(s) && SizesKnown(s, sizes) && Enabled(c, s, step) && !step.EditNodes?
    requires c.code.resize.Repaired? ==> forall size | size in sizes :: Growing(size)
    ensures Covers(Next(c, s, step).nodeSets, s.nodeSets)
  {
    NodeSetsMove(c, s, step);
    if Next(c, s, step).nodeSets == s.nodeSets {
      CoversItself(s.nodeSets);
    } else {
      var Planned(_, cr, snapshot) := s.calls[step.call];
      EnsureNeverShrinks(snapshot, cr.node, cr.size, c.nodeCount, c.code.resize);
    }
    hide Next, Enabled, EnsureNode, Covers, Growing;
  }

  /** Any number of goroutines, and sizes that are no quantities: nothing is ever patched. */
  lemma NoQuantityKeeps(c: Config, s: State, step: Step, sizes: iset<string>)
    requires SizesKnown(s, sizes) && Enabled(c, s, step) && !step.EditNodes?
    requires forall size | size in sizes :: QuantityBytes(size) == None
    ensures Next(c, s, step).nodeSets == s.nodeSets
  {
    NodeSetsMove(c, s, step);
    if Next(c, s, step).nodeSets != s.nodeSets {
      var Planned(_, cr, snapshot) := s.calls[step.call];
      NoQuantityNoPatch(snapshot, cr.node, cr.size, c.nodeCount, c.code.resize);
    }
    hide Next, Enabled, EnsureNode, QuantityBytes;
  }

  lemma {:induction false} KnownRun(c: Config, s: State, steps: seq<Step>, sizes: iset<string>)
    requires SizesKnown(s, sizes) && Run(c, s, steps).Some? && Undisturbed(steps, sizes)
    ensures SizesKnown(Run(c, s, steps).value, sizes)
    ensures PlansAreCurrent(s) ==> PlansAreCurrent(Run(c, s, steps).value)
  {
    hide Enabled, Next, PlansAreCurrent, SizesKnown, Allowed;
    if steps == [] {
    } else {
      var front, last := steps[..|steps| - 1], steps[|steps| - 1];
      assert forall n | 0 <= n < |front| :: front[n] == steps[n];
      assert Allowed(last, sizes);
      KnownRun(c, s, front, sizes);
      var t := Run(c, s, front).value;
      AllowedIs(last, sizes);
      SizesStep(c, t, last, sizes);
      if PlansAreCurrent(s) {
        CurrentStep(c, t, last);
      }
    }
  }

  lemma AllowedIs(step: Step, sizes: iset<string>)
    requires Allowed(step, sizes)
    ensures !step.EditNodes? && AsksFor(step, sizes)
  {
  }

  /** With the controller's one goroutine, and no other writer, no run ever shrinks a claim. */
  lemma {:induction false} StorageNeverShrinks(c: Config, s: State, steps: seq<Step>, sizes: iset<string>)
    requires PlansAreCurrent(s) && SizesKnown(s, sizes) && Run(c, s, steps).Some? && Undisturbed(steps, sizes)
    requires c.code.resize.Repaired? ==> forall size | size in sizes :: Growing(size)
    ensures Covers(Run(c, s, steps).value.nodeSets, s.nodeSets)
  {
    hide Enabled, Next, PlansAreCurrent, SizesKnown, Growing, Covers, Allowed;
    if steps == [] {
      CoversItself(s.nodeSets);
    } else {
      var front, last := steps[..|steps| - 1], steps[|steps| - 1];
      assert forall n | 0 <= n < |front| :: front[n] == steps[n];
      assert Allowed(last, sizes);
      AllowedIs(last, sizes);
      StorageNeverShrinks(c, s, front, sizes);
      KnownRun(c, s, front, sizes);
      var t := Run(c, s, front).value;
      CurrentPlanKeeps(c, t, last, sizes);
      CoversTransitive(s.nodeSets, t.nodeSets, Next(c, t, last).nodeSets);
    }
  }

  /** So it is for the sizes the handlers publish, and all other binary ones. */
  lemma BinaryStorageNeverShrinks(c: Config, bound: seq<bool>, sets: seq<NodeSet>, steps: seq<Step>,
                                  sizes: iset<string>)
    requires (forall size | size in sizes :: BinarySize(size))
    requires Run(c, Init(1, bound, sets), steps).Some? && Undisturbed(steps, sizes)
    ensures Covers(Run(c, Init(1, bound, sets), steps).value.nodeSets, sets)
  {
    forall size | size in sizes
      ensures Growing(size)
    {
      BinaryIsGrowing(size);
    }
    hide BinarySize, Growing, Run, Undisturbed, Covers;
    StorageNeverShrinks(c, Init(1, bound, sets), steps, sizes);
  }

  // ---------------------------------------------------------------- sent tasks and their nodes

  /** What a call or a sent task has seen of its node is there. */
  predicate Backed(s: State) {
    && (forall i | 0 <= i < |s.calls| && (s.calls[i].Sized? || s.calls[i].Sending?) ::
          HasStorage(s.nodeSets, s.calls[i].cr.node, s.calls[i].seen))
    && (forall t | 0 <= t < |s.sends| :: HasStorage(s.nodeSets, s.sends[t].cr.node, s.sends[t].seen))
  }

  /** A call that is past its patch leaves the list it has seen. */
  lemma SizedIsPatched(c: Config, s: State, step: Step)
    requires PlansAreCurrent(s) && Enabled(c, s, step) && step.PatchCluster?
    requires step.call < |s.calls| && step.call < |Next(c, s, step).calls| && Next(c, s, step).calls[step.call].Sized?
    ensures var t, i := Next(c, s, step), step.call;
            HasStorage(t.nodeSets, t.calls[i].cr.node, t.calls[i].seen)
  {
    var Planned(_, cr, snapshot) := s.calls[step.call];
    EnsureSeesWhatIsThere(snapshot, cr.node, cr.size, c.nodeCount, c.code.resize);
    hide EnsureNode, HasStorage;
  }

  lemma BackedStep(c: Config, s: State, step: Step)
    requires Backed(s) && PlansAreCurrent(s) && Enabled(c, s, step)
    requires Covers(Next(c, s, step).nodeSets, s.nodeSets)
    ensures Backed(Next(c, s, step))
  {
    hide Next, Enabled, Covers;
    var t := Next(c, s, step);
    SendsMove(c, s, step);
    CallsMove(c, s, step);
    forall name, bytes | HasStorage(s.nodeSets, name, bytes)
      ensures HasStorage(t.nodeSets, name, bytes)
    {
      CoversKeepsStorage(t.nodeSets, s.nodeSets, name, bytes);
    }
    forall i | 0 <= i < |t.calls| && (t.calls[i].Sized? || t.calls[i].Sending?)
      ensures HasStorage(t.nodeSets, t.calls[i].cr.node, t.calls[i].seen)
    {
      if CallStep(step) && step.call == i {
        SeenIsThere(c, s, step);
      }
    }
    hide HasStorage;
  }

  lemma SeenIsThere(c: Config, s: State, step: Step)
    requires Backed(s) && PlansAreCurrent(s) && Enabled(c, s, step) && CallStep(step)
    requires Covers(Next(c, s, step).nodeSets, s.nodeSets)
    requires var t, i := Next(c, s, step), step.call; i < |t.calls| && (t.calls[i].Sized? || t.calls[i].Sending?)
    ensures var t, i := Next(c, s, step), step.call;
            HasStorage(t.nodeSets, t.calls[i].cr.node, t.calls[i].seen)
  {
    var t, i := Next(c, s, step), step.call;
    SeenMoves(c, s, step);
    CopyMoves(c, s, step, i);
    if t.calls[i].Sized? {
      SizedIsPatched(c, s, step);
    } else {
      CoversKeepsStorage(t.nodeSets, s.nodeSets, s.calls[i].cr.node, s.calls[i].seen);
    }
    hide Next, Enabled, HasStorage, EnsureNode, Covers;
  }

  lemma {:induction false} BackedRun(c: Config, s: State, steps: seq<Step>, sizes: iset<string>)
    requires Backed(s) && PlansAreCurrent(s) && SizesKnown(s, sizes)
    requires Run(c, s, steps).Some? && Undisturbed(steps, sizes)
    requires c.code.resize.Repaired? ==> forall size | size in sizes :: Growing(size)
    ensures Backed(Run(c, s, steps).value)
  {
    hide Enabled, Next, Backed, PlansAreCurrent, SizesKnown, Growing, Covers, Allowed;
    if steps == [] {
    } else {
      var front, last := steps[..|steps| - 1], steps[|steps| - 1];
      assert forall n | 0 <= n < |front| :: front[n] == steps[n];
      assert Allowed(last, sizes);
      AllowedIs(last, sizes);
      BackedRun(c, s, front, sizes);
      KnownRun(c, s, front, sizes);
      CurrentPlanKeeps(c, Run(c, s, front).value, last, sizes);
      BackedStep(c, Run(c, s, front).value, last);
    }
  }

  lemma StartIsBacked(bound: seq<bool>, sets: seq<NodeSet>, n: nat, sizes: iset<string>)
    requires n <= 1
    ensures var s := Init(n, bound, sets); Backed(s) && PlansAreCurrent(s) && SizesKnown(s, sizes)
  {
  }

  /**
   * With one Reconcile goroutine, no other writer, and growing sizes or the resize as written, the node
   * of every task sent is there with at least the storage its Reconcile had seen, in every later state.
   */
  lemma SentTasksKeepStorage(c: Config, bound: seq<bool>, sets: seq<NodeSet>, steps: seq<Step>, sizes: iset<string>,
                             t: nat)
    requires Run(c, Init(1, bound, sets), steps).Some? && Undisturbed(steps, sizes)
    requires c.code.resize.Repaired? ==> forall size | size in sizes :: Growing(size)
    requires t < |Run(c, Init(1, bound, sets), steps).value.sends|
    ensures var s := Run(c, Init(1, bound, sets), steps).value;
            HasStorage(s.nodeSets, s.sends[t].cr.node, s.sends[t].seen)
  {
    StartIsBacked(bound, sets, 1, sizes);
    hide Run, Init, Growing, HasStorage, Undisturbed;
    BackedRun(c, Init(1, bound, sets), steps, sizes);
  }

  // ---------------------------------------------------------------- sent tasks and their requests

  /** Some task was sent that had seen less than ToGB reads its size as. */
  ghost predicate ShortIn(c: Config, s: State, steps: seq<Step>, t: nat, sizes: iset<string>) {
    && Run(c, s, steps).Some? && Asking(steps, sizes) && t < |Run(c, s, steps).value.sends|
    && var sent := Run(c, s, steps).value.sends[t];
       ToGB(sent.cr.size).Ok? && StoredGB(sent.seen) < ToGB(sent.cr.size).value
  }

  /** Resources ask for the given sizes; other writers may edit node sets. */
  ghost predicate Asking(steps: seq<Step>, sizes: iset<string>) {
    forall n | 0 <= n < |steps| :: AsksFor(steps[n], sizes)
  }

  ghost predicate CanFallShort(c: Config, reconcilers: nat, sizes: iset<string>) {
    exists bound: seq<bool>, sets: seq<NodeSet>, steps: seq<Step>, t: nat ::
      ShortIn(c, Init(reconcilers, bound, sets), steps, t, sizes)
  }

  lemma {:induction false} AskedRun(c: Config, s: State, steps: seq<Step>, sizes: iset<string>)
    requires SizesKnown(s, sizes) && Run(c, s, steps).Some? && Asking(steps, sizes)
    ensures SizesKnown(Run(c, s, steps).value, sizes)
  {
    hide Enabled, Next, SizesKnown, AsksFor;
    if steps == [] {
    } else {
      var front, last := steps[..|steps| - 1], steps[|steps| - 1];
      assert forall n | 0 <= n < |front| :: front[n] == steps[n];
      AskedRun(c, s, front, sizes);
      SizesStep(c, Run(c, s, front).value, last, sizes);
    }
  }

  /** A new node for a size that is not covering: its task is sent all the same. */
  lemma OneTaskFallsShort(c: Config, n: nat, sizes: iset<string>, size: string)
    requires n >= 1 && size in sizes && !Covering(size)
    ensures CanFallShort(c, n, sizes)
  {
    hide ToGB, QuantityBytes, StoredGB;
    var inner := FirstTaskIsSent(c, n, size);
    var start, steps := Init(n, [false], []), ArriveSteps(0, "a", "x", size) + inner;
    assert Asking(steps, sizes);
    hide Run, Init, Asking, SentState, ArriveSteps;
    assert ShortIn(c, start, steps, 0, sizes);
  }

  /**
   * Some run asking for these sizes sends a task that had seen less than ToGB reads its size as exactly
   * when somebody reconciles and some size is not covering: both readers take it, and ToGB reads more.
   */
  lemma SentTasksFallShortExactly(c: Config, reconcilers: nat, sizes: iset<string>)
    ensures CanFallShort(c, reconcilers, sizes)
            <==> reconcilers >= 1 && exists size | size in sizes :: !Covering(size)
  {
    hide Covering, CanFallShort;
    if reconcilers >= 1 {
      if size :| size in sizes && !Covering(size) {
        OneTaskFallsShort(c, reconcilers, sizes, size);
      }
    }
    if CanFallShort(c, reconcilers, sizes) {
      FallingShortNeeds(c, reconcilers, sizes);
    }
  }

  lemma FallingShortNeeds(c: Config, reconcilers: nat, sizes: iset<string>)
    requires CanFallShort(c, reconcilers, sizes)
    ensures reconcilers >= 1 && exists size | size in sizes :: !Covering(size)
  {
    hide Covering, ToGB, Run, Asking;
    var bound: seq<bool>, sets: seq<NodeSet>, steps: seq<Step>, t: nat :|
      ShortIn(c, Init(reconcilers, bound, sets), steps, t, sizes);
    var start := Init(reconcilers, bound, sets);
    var end := Run(c, start, steps).value;
    AskedRun(c, start, steps, sizes);
    assert Reachable(c, end);
    if Covering(end.sends[t].cr.size) {
      SentTasksHaveStorage(c, end, t);
    }
    if reconcilers == 0 {
      NothingSentWithoutCalls(c, start, steps);
    }
  }

  lemma {:induction false} NothingSentWithoutCalls(c: Config, s: State, steps: seq<Step>)
    requires s.calls == [] && s.sends == [] && Run(c, s, steps).Some?
    ensures Run(c, s, steps).value.sends == []
  {
    hide Enabled, Next;
    if steps == [] {
    } else {
      var front := steps[..|steps| - 1];
      NothingSentWithoutCalls(c, s, front);
      NoCalls(c, s, front);
      SendsMove(c, Run(c, s, front).value, steps[|steps| - 1]);
    }
  }

  // ---------------------------------------------------------------- runs that shrink

  /** After the steps of a run, one more step lowers a claim or drops a node set. */
  ghost predicate ShrinksIn(c: Config, s: State, steps: seq<Step>, step: Step, sizes: iset<string>) {
    && Run(c, s, steps).Some? && Enabled(c, Run(c, s, steps).value, step)
    && Undisturbed(steps, sizes) && Allowed(step, sizes)
    && !Covers(Next(c, Run(c, s, steps).value, step).nodeSets, Run(c, s, steps).value.nodeSets)
  }

  /** Some run with so many goroutines and these sizes does it. */
  ghost predicate CanShrink(c: Config, reconcilers: nat, sizes: iset<string>) {
    exists bound: seq<bool>, sets: seq<NodeSet>, steps: seq<Step>, step: Step ::
      ShrinksIn(c, Init(reconcilers, bound, sets), steps, step, sizes)
  }

  lemma UndisturbedConcat(a: seq<Step>, b: seq<Step>, sizes: iset<string>)
    requires Undisturbed(a, sizes) && Undisturbed(b, sizes)
    ensures Undisturbed(a + b, sizes)
  {
    hide Allowed;
  }

  lemma TaskStepsAllowed(row: nat, i: nat, key: Key, node: string, size: string, sizes: iset<string>)
    requires size in sizes
    ensures Undisturbed(PlanSteps(row, i, key, node, size), sizes)
  {
  }

  /** Two tasks, planned by two calls on the same list. */
  function TwoPlans(nodes: (string, string), sizes: (string, string)): seq<Step> {
    PlanSteps(0, 0, "a", nodes.0, sizes.0) + PlanSteps(1, 1, "b", nodes.1, sizes.1)
  }

  lemma TwoPlansReached(c: Config, n: nat, bound: seq<bool>, sets: seq<NodeSet>,
                        nodes: (string, string), sizes: (string, string))
    requires n >= 2
    ensures var start := Init(n, bound, sets);
            && Run(c, start, TwoPlans(nodes, sizes)).Some?
            && var t := Run(c, start, TwoPlans(nodes, sizes)).value;
               && t.nodeSets == sets && |t.calls| == n
               && t.calls[0] == Planned("a", NewCR("a", nodes.0, sizes.0), sets)
               && t.calls[1] == Planned("b", NewCR("b", nodes.1, sizes.1), sets)
  {
    var start := Init(n, bound, sets);
    PlanArrived(c, start, 0, "a", nodes.0, sizes.0);
    var one := PlanSteps(0, 0, "a", nodes.0, sizes.0);
    var t := Run(c, start, one).value;
    assert !InCall(t, "b");
    PlanArrived(c, t, 1, "b", nodes.1, sizes.1);
    RunConcat(c, start, one, PlanSteps(1, 1, "b", nodes.1, sizes.1));
    hide Run, PlanSteps;
  }

  lemma PatchAccepted(c: Config, s: State, i: nat)
    requires i < |s.calls| && s.calls[i].Planned?
    requires var Planned(_, cr, snapshot) := s.calls[i];
             var plan := EnsureNode(snapshot, cr.node, cr.size, c.nodeCount, c.code.resize);
             plan.Ok? && plan.value.0 != snapshot
    ensures Enabled(c, s, PatchCluster(i, true))
    ensures var Planned(_, cr, snapshot) := s.calls[i];
            var t := Next(c, s, PatchCluster(i, true));
            && t.nodeSets == EnsureNode(snapshot, cr.node, cr.size, c.nodeCount, c.code.resize).value.0
            && |t.calls| == |s.calls| && forall j | 0 <= j < |s.calls| && j != i :: t.calls[j] == s.calls[j]
  {
    hide EnsureNode;
  }

  /** Two goroutines plan on one list and patch in turn: the list is the second's alone. */
  lemma TwoPatches(c: Config, n: nat, bound: seq<bool>, sets: seq<NodeSet>,
                   nodes: (string, string), sizes: (string, string))
    requires n >= 2
    requires var one := EnsureNode(sets, nodes.0, sizes.0, c.nodeCount, c.code.resize);
             one.Ok? && one.value.0 != sets
    requires var two := EnsureNode(sets, nodes.1, sizes.1, c.nodeCount, c.code.resize);
             two.Ok? && two.value.0 != sets
    ensures var start, steps := Init(n, bound, sets), TwoPlans(nodes, sizes) + [PatchCluster(1, true)];
            && Run(c, start, steps).Some?
            && var t := Run(c, start, steps).value;
               && t.nodeSets == EnsureNode(sets, nodes.1, sizes.1, c.nodeCount, c.code.resize).value.0
               && Enabled(c, t, PatchCluster(0, true))
               && Next(c, t, PatchCluster(0, true)).nodeSets
                  == EnsureNode(sets, nodes.0, sizes.0, c.nodeCount, c.code.resize).value.0
  {
    TwoPlansReached(c, n, bound, sets, nodes, sizes);
    var start := Init(n, bound, sets);
    var s := Run(c, start, TwoPlans(nodes, sizes)).value;
    PatchAccepted(c, s, 1);
    RunAppend(c, start, TwoPlans(nodes, sizes), PatchCluster(1, true));
    PatchAccepted(c, Next(c, s, PatchCluster(1, true)), 0);
    hide Run, Next, Enabled, EnsureNode, TwoPlans, Init;
  }

  lemma TwoPlansAllowed(nodes: (string, string), sizes: (string, string), all: iset<string>)
    requires sizes.0 in all && sizes.1 in all
    ensures Undisturbed(TwoPlans(nodes, sizes) + [PatchCluster(1, true)], all)
  {
    TaskStepsAllowed(0, 0, "a", nodes.0, sizes.0, all);
    TaskStepsAllowed(1, 1, "b", nodes.1, sizes.1, all);
    UndisturbedConcat(PlanSteps(0, 0, "a", nodes.0, sizes.0), PlanSteps(1, 1, "b", nodes.1, sizes.1), all);
    UndisturbedConcat(TwoPlans(nodes, sizes), [PatchCluster(1, true)], all);
    hide PlanSteps, TwoPlans;
  }

  /** Two goroutines, two new nodes: the second patch drops the node of the first. */
  lemma TwoCallsDropANode(c: Config, n: nat, sizes: iset<string>, size: string)
    requires n >= 2 && size in sizes && QuantityBytes(size).Some?
    ensures CanShrink(c, n, sizes)
  {
    NewNode("x", size, c.nodeCount, c.code.resize);
    NewNode("y", size, c.nodeCount, c.code.resize);
    TwoPatches(c, n, [], [], ("x", "y"), (size, size));
    TwoPlansAllowed(("x", "y"), (size, size), sizes);
    var start, steps := Init(n, [], []), TwoPlans(("x", "y"), (size, size)) + [PatchCluster(1, true)];
    var t := Run(c, start, steps).value;
    var bytes := QuantityBytes(size).value;
    OtherNode(NodeSet("x", c.nodeCount, [bytes]), NodeSet("y", c.nodeCount, [bytes]));
    hide Run, Next, Enabled, EnsureNode, TwoPlans, Init, Covers, QuantityBytes, Undisturbed;
    assert ShrinksIn(c, start, steps, PatchCluster(0, true), sizes);
  }

  lemma OtherNode(a: NodeSet, b: NodeSet)
    requires a.name != b.name
    ensures !Covers([a], [b])
  {
    assert [a][0].name != [b][0].name;
  }

  lemma SmallerClaim(a: NodeSet, b: NodeSet)
    requires |a.claims| == |b.claims| == 1 && a.claims[0] < b.claims[0]
    ensures !Covers([a], [b])
  {
    assert [a][0].claims[0] < [b][0].claims[0];
  }

  lemma OneNode(node: NodeSet, size: string, count: nat)
    requires |node.claims| == 1 && QuantityBytes(size).Some? && ToGB(size).Ok?
    requires ToGB(size).value > StoredGB(node.claims[0])
    ensures EnsureNode([node], node.name, size, count, Repaired)
         == Ok(([node.(claims := [QuantityBytes(size).value])], QuantityBytes(size).value))
  {
    hide QuantityBytes, ToGB, StoredGB;
    LastIsFound([], node);
    assert [] + [node] == [node];
    var bytes := QuantityBytes(size).value;
    assert node.claims[0 := bytes] == [bytes];
    assert [node][0 := node.(claims := [bytes])] == [node.(claims := [bytes])];
  }

  /** Two goroutines and one node: the plan made for the smaller size and patched last undoes the
      larger one. */
  lemma StalePlanShrinks(c: Config, n: nat, node: NodeSet, small: string, large: string)
    requires n >= 2 && c.code.resize.Repaired? && |node.claims| == 1
    requires BinarySize(small) && BinarySize(large) && node.claims[0] < Bytes(small) < Bytes(large)
    ensures var steps := TwoPlans((node.name, node.name), (small, large)) + [PatchCluster(1, true)];
            && ShrinksIn(c, Init(n, [], [node]), steps, PatchCluster(0, true), iset{small, large})
            && var t := Run(c, Init(n, [], [node]), steps).value;
               && t.nodeSets == [node.(claims := [Bytes(large)])]
               && Next(c, t, PatchCluster(0, true)).nodeSets == [node.(claims := [Bytes(small)])]
  {
    hide BinarySize, Bytes, Covers;
    ComparedAsBytes(small, node.claims[0]);
    ComparedAsBytes(large, node.claims[0]);
    hide QuantityBytes, ToGB, StoredGB, EnsureNode;
    OneNode(node, small, c.nodeCount);
    OneNode(node, large, c.nodeCount);
    assert node.(claims := [Bytes(small)]).claims[0] != node.claims[0];
    assert node.(claims := [Bytes(large)]).claims[0] != node.claims[0];
    hide Run, Next, Enabled, TwoPlans, Init;
    TwoPatches(c, n, [], [node], (node.name, node.name), (small, large));
    TwoPlansAllowed((node.name, node.name), (small, large), iset{small, large});
    SmallerClaim(node.(claims := [Bytes(small)]), node.(claims := [Bytes(large)]));
  }

  /** One goroutine, the resize repaired, and a size that is not growing: it lowers some claim. */
  lemma OneCallShrinks(c: Config, n: nat, sizes: iset<string>, size: string)
    requires n >= 1 && c.code.resize.Repaired? && size in sizes && !Growing(size)
    ensures CanShrink(c, n, sizes)
  {
    GrowingIs(size);
    var claim: nat :| ToGB(size).value > StoredGB(claim) && claim > QuantityBytes(size).value;
    hide QuantityBytes, ToGB, StoredGB;
    OneNode(NodeSet("x", 0, [claim]), size, c.nodeCount);
    OnePatch(c, n, sizes, size, NodeSet("x", 0, [claim]), QuantityBytes(size).value);
    hide *;
  }

  lemma OnePatch(c: Config, n: nat, sizes: iset<string>, size: string, node: NodeSet, bytes: nat)
    requires n >= 1 && size in sizes && |node.claims| == 1 && bytes < node.claims[0]
    requires EnsureNode([node], node.name, size, c.nodeCount, c.code.resize) == Ok(([node.(claims := [bytes])], bytes))
    ensures CanShrink(c, n, sizes)
  {
    hide EnsureNode, Covers;
    var start, steps, after := Init(n, [], [node]), PlanSteps(0, 0, "a", node.name, size), node.(claims := [bytes]);
    PlanArrived(c, start, 0, "a", node.name, size);
    TaskStepsAllowed(0, 0, "a", node.name, size, sizes);
    var t := Run(c, start, steps).value;
    assert [after][0].claims[0] != [node][0].claims[0];
    hide Run, Next, PlanSteps, Init, Undisturbed;
    PatchAccepted(c, t, 0);
    SmallerClaim(after, node);
    hide Enabled;
    assert ShrinksIn(c, start, steps, PatchCluster(0, true), sizes);
  }

  // ---------------------------------------------------------------- the exact condition

  /**
   * Some run without other writers, asking for these sizes, lowers a claim or drops a node set exactly
   * when two goroutines reconcile and some size is a quantity at all, or one does, the resize is
   * repaired, and some size is not growing.
   */
  lemma StorageShrinksExactly(c: Config, reconcilers: nat, sizes: iset<string>)
    ensures CanShrink(c, reconcilers, sizes) <==>
              || (reconcilers >= 2 && exists size | size in sizes :: QuantityBytes(size).Some?)
              || (reconcilers == 1 && c.code.resize.Repaired? && exists size | size in sizes :: !Growing(size))
  {
    hide QuantityBytes, Growing, CanShrink;
    if reconcilers >= 2 {
      if size :| size in sizes && QuantityBytes(size).Some? {
        TwoCallsDropANode(c, reconcilers, sizes, size);
      }
    } else if reconcilers == 1 && c.code.resize.Repaired? {
      if size :| size in sizes && !Growing(size) {
        OneCallShrinks(c, reconcilers, sizes, size);
      }
    }
    if CanShrink(c, reconcilers, sizes) {
      ShrinkingNeeds(c, reconcilers, sizes);
    }
  }

  lemma {:induction false} NoCalls(c: Config, s: State, steps: seq<Step>)
    requires Run(c, s, steps).Some?
    ensures |Run(c, s, steps).value.calls| == |s.calls|
  {
    hide Enabled, Next;
    if steps == [] {
    } else {
      var front := steps[..|steps| - 1];
      NoCalls(c, s, front);
      CallsMove(c, Run(c, s, front).value, steps[|steps| - 1]);
    }
  }

  lemma ShrinkingNeeds(c: Config, reconcilers: nat, sizes: iset<string>)
    requires CanShrink(c, reconcilers, sizes)
    ensures || (reconcilers >= 2 && exists size | size in sizes :: QuantityBytes(size).Some?)
            || (reconcilers == 1 && c.code.resize.Repaired? && exists size | size in sizes :: !Growing(size))
  {
    hide QuantityBytes, Growing, Covers, Run, Next, Enabled, Undisturbed;
    var bound: seq<bool>, sets: seq<NodeSet>, steps: seq<Step>, step: Step :|
      ShrinksIn(c, Init(reconcilers, bound, sets), steps, step, sizes);
    var start := Init(reconcilers, bound, sets);
    var t := Run(c, start, steps).value;
    KnownRun(c, start, steps, sizes);
    AllowedIs(step, sizes);
    if forall size | size in sizes :: QuantityBytes(size) == None {
      NoQuantityKeeps(c, t, step, sizes);
      CoversItself(t.nodeSets);
    } else if reconcilers <= 1 {
      if c.code.resize.Repaired? ==> forall size | size in sizes :: Growing(size) {
        CurrentPlanKeeps(c, t, step, sizes);
      } else if reconcilers == 0 {
        NoCalls(c, start, steps);
        NodeSetsMove(c, t, step);
        CoversItself(t.nodeSets);
      }
    }
  }
}
