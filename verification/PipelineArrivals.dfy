/** The steps in which a new task arrives at the pipeline and its Reconcile call makes a plan. */
module PipelineArrivals {
  import opened Wrappers
  import opened Quantities
  import opened NodeSets
  import opened Polling
  import opened TaskPool
  import opened Pipeline
  import opened Service

  /** The resource of a new task; its index is named like the resource. */
  function NewCR(key: Key, node: string, size: string): CR {
    CR("task", key, node, size, false, None)
  }

  function ArriveSteps(row: nat, key: Key, node: string, size: string): seq<Step> {
    [CreateRow("task", key, ""), CreateCR(row, key, node, size), Notice(key)]
  }

  function Arrived(s: State, key: Key, node: string, size: string): State {
    s.(rows := s.rows + [TaskRow("task", key, "")],
       crs := s.crs[key := NewCR(key, node, size)],
       used := s.used + {key}, noticed := s.noticed + {key}, pending := s.pending + {key})
  }

  /** Nothing of that name has ever been here. */
  predicate NewKey(s: State, key: Key) {
    key != "" && key !in s.used && !InCall(s, key) && NoSuchRow(s.rows, "task", key)
  }

  lemma Arrives(c: Config, s: State, key: Key, node: string, size: string)
    requires NewKey(s, key)
    ensures Run(c, s, ArriveSteps(|s.rows|, key, node, size)) == Some(Arrived(s, key, node, size))
  {
    var row, create, notice := CreateRow("task", key, ""), CreateCR(|s.rows|, key, node, size), Notice(key);
    RunOne(c, s, row);
    RunAppend(c, s, [row], create);
    assert [row] + [create] == [row, create];
    RunAppend(c, s, [row, create], notice);
    assert [row, create] + [notice] == ArriveSteps(|s.rows|, key, node, size);
    hide Run, InCall;
  }

  function PlanSteps(row: nat, i: nat, key: Key, node: string, size: string): seq<Step> {
    ArriveSteps(row, key, node, size) + [Take(i, key), Load(i, true), MarkStart(i, true), ReadCluster(i, true)]
  }

  /** A new task up to the plan its call makes on the list as it is. */
  lemma PlanArrived(c: Config, s: State, i: nat, key: Key, node: string, size: string)
    requires NewKey(s, key) && i < |s.calls| && s.calls[i].Free?
    ensures Run(c, s, PlanSteps(|s.rows|, i, key, node, size)).Some?
    ensures var t := Run(c, s, PlanSteps(|s.rows|, i, key, node, size)).value;
            && t.calls == s.calls[i := Planned(key, NewCR(key, node, size), s.nodeSets)]
            && t.rows == s.rows + [TaskRow("task", key, "")] && t.used == s.used + {key}
            && t.nodeSets == s.nodeSets && t.pool == s.pool && t.sends == s.sends
  {
    var t := Arrived(s, key, node, size);
    Arrives(c, s, key, node, size);
    assert !InCall(t, key);
    CallPlans(c, t, i, key, true, true);
    RunConcat(c, s, ArriveSteps(|s.rows|, key, node, size),
              [Take(i, key), Load(i, true), MarkStart(i, true), ReadCluster(i, true)]);
    hide Run, ArriveSteps, InCall;
  }

  // ---------------------------------------------------------------- up to the send

  /** Steps of the pipeline's own, none of which brings in a resource, an event or another edit, and
      whose StatefulSet checks all pass. */
  predicate Inner(c: Config, steps: seq<Step>) {
    forall n | 0 <= n < |steps| :: InnerStep(c, steps[n])
  }

  predicate InnerStep(c: Config, step: Step) {
    && !step.CreateRow? && !step.CreateCR? && !step.DeleteCR? && !step.EditNodes? && !step.Notice?
    && (step.CheckNode? ==> step.sts == Found(c.code.ownerFixed, true))
  }

  /** The first call is free, and a dispatcher that lives on waits at an empty queue. */
  predicate Idling(s: State) {
    s.calls != [] && s.calls[0].Free? && s.pool.queue == [] && s.pool.dispatchers == [Idle(false)]
  }

  predicate Waits(s: State, key: Key) {
    key in s.pending && !InCall(s, key) && key in s.crs
  }

  function EnsureFor(c: Config, s: State, key: Key): Result<(seq<NodeSet>, nat), NodeFault>
    requires key in s.crs
  {
    EnsureNode(s.nodeSets, s.crs[key].node, s.crs[key].size, c.nodeCount, c.code.resize)
  }

  /** The state once the task of a waiting key has been handed to the dispatcher. */
  function SentState(c: Config, s: State, key: Key): State
    requires Idling(s) && Waits(s, key) && EnsureFor(c, s, key).Ok?
  {
    var (sets, seen) := EnsureFor(c, s, key).value;
    var marked := if !s.crs[key].started && c.code.statusFixed then s.crs[key := s.crs[key].(started := true)]
                  else s.crs;
    s.(crs := marked, nodeSets := sets, pending := s.pending - {key},
       sends := s.sends + [SendRecord(key, s.crs[key], seen)], pool := Handoff(s.pool, 0))
  }

  lemma TaskIsSent(c: Config, s: State, key: Key) returns (steps: seq<Step>)
    requires Idling(s) && Waits(s, key) && EnsureFor(c, s, key).Ok?
    ensures Run(c, s, steps) == Some(SentState(c, s, key)) && Inner(c, steps)
  {
    var env := Env(true, true, true, true, Found(c.code.ownerFixed, true));
    hide EnsureNode;
    ReconcileIsOneCall(c, s, 0, key, env);
    var call := CallSteps(c, s, 0, key, env);
    CallIsInner(c, s, key, env);
    var u := AfterCall(c, s, 0, key, env);
    Hands(c, s, key, env);
    hide Run, CallSteps, AfterCall, InCall;
    RunAppend(c, s, call, HandTask(0, 0));
    steps := call + [HandTask(0, 0)];
    hide Next, Enabled, SentState;
  }

  lemma CallIsInner(c: Config, s: State, key: Key, env: Env)
    requires env.sts == Found(c.code.ownerFixed, true)
    ensures Inner(c, CallSteps(c, s, 0, key, env))
  {
    hide EnsureNode;
  }

  lemma Hands(c: Config, s: State, key: Key, env: Env)
    requires Idling(s) && Waits(s, key) && EnsureFor(c, s, key).Ok?
    requires env == Env(true, true, true, true, Found(c.code.ownerFixed, true))
    ensures Enabled(c, AfterCall(c, s, 0, key, env), HandTask(0, 0))
    ensures Next(c, AfterCall(c, s, 0, key, env), HandTask(0, 0)) == SentState(c, s, key)
  {
    hide EnsureNode, InCall;
    var seen := EnsureFor(c, s, key).value.1;
    UpdateTwice(s.calls, 0, Sending(key, s.crs[key], seen), Free);
    assert s.calls[0 := Free] == s.calls;
  }

  lemma InnerConcat(c: Config, a: seq<Step>, b: seq<Step>)
    requires Inner(c, a) && Inner(c, b)
    ensures Inner(c, a + b)
  {
    hide InnerStep;
  }

  lemma NewNode(name: string, size: string, count: nat, code: ResizeCode)
    requires QuantityBytes(size).Some?
    ensures EnsureNode([], name, size, count, code)
         == Ok(([NodeSet(name, count, [QuantityBytes(size).value])], QuantityBytes(size).value))
  {
    hide QuantityBytes;
    assert [] + [NodeSet(name, count, [QuantityBytes(size).value])]
           == [NodeSet(name, count, [QuantityBytes(size).value])];
  }

  /** The first task of all, for a new node. */
  lemma FirstTaskIsSent(c: Config, n: nat, size: string) returns (steps: seq<Step>)
    requires n >= 1 && QuantityBytes(size).Some?
    ensures Run(c, Init(n, [false], []), ArriveSteps(0, "a", "x", size) + steps).Some? && Inner(c, steps)
    ensures var s := Arrived(Init(n, [false], []), "a", "x", size);
            && Idling(s) && Waits(s, "a") && EnsureFor(c, s, "a").Ok?
            && Run(c, Init(n, [false], []), ArriveSteps(0, "a", "x", size) + steps) == Some(SentState(c, s, "a"))
            && SentState(c, s, "a").sends == [SendRecord("a", NewCR("a", "x", size), QuantityBytes(size).value)]
  {
    var start := Init(n, [false], []);
    Arrives(c, start, "a", "x", size);
    var s := Arrived(start, "a", "x", size);
    assert !InCall(s, "a");
    NewNode("x", size, c.nodeCount, c.code.resize);
    hide QuantityBytes, EnsureNode;
    steps := TaskIsSent(c, s, "a");
    RunConcat(c, start, ArriveSteps(0, "a", "x", size), steps);
    hide Run;
  }
}
