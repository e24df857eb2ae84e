/**
 * A finished task that is sent again: runs in which a second worker for the same row overwrites the
 * SUCCESS of the first, and exactly when there are such runs.
 */
module PipelineTwice {
  import opened Wrappers
  import opened SizeText
  import opened Quantities
  import opened NodeSets
  import opened Polling
  import opened TaskPool
  import opened Pipeline
  import opened PipelineParts
  import opened PipelineArrivals
  import opened PipelineSafety
  import opened PipelineDone
  import opened PipelineRuns
  import opened PipelineProgress
  import opened PipelineOnce
  import opened PipelineStorage
  import opened Service

  // ---------------------------------------------------------------- from a waiting key to a worker

  /** The key waits, its node can be sized, and nobody holds a slot. */
  predicate StartingFor(c: Config, s: State, key: Key) {
    Idling(s) && Waits(s, key) && s.pool.sem == 0 && s.pool.sent == |s.sends| && EnsureFor(c, s, key).Ok?
  }

  /** A waiting key's task with a new worker of its own. */
  lemma TaskGetsWorker(c: Config, s: State, key: Key) returns (steps: seq<Step>)
    requires StartingFor(c, s, key) && c.limits.concurrency >= 1
    ensures Run(c, s, steps).Some? && Inner(c, steps)
    ensures var t, u := Run(c, s, steps).value, SentState(c, s, key);
            t == u.(pool := u.pool.(dispatchers := [Idle(false)], sem := 1,
                                    workers := s.pool.workers + [Worker(|s.sends|, TaskPool.Querying, [])]))
  {
    var sending := TaskIsSent(c, s, key);
    var u := SentState(c, s, key);
    Acquires(c, s, key);
    RunAppend(c, s, sending, AcquireSlot(0));
    steps := sending + [AcquireSlot(0)];
    hide Run, SentState, Next, Enabled;
  }

  lemma Acquires(c: Config, s: State, key: Key)
    requires StartingFor(c, s, key) && c.limits.concurrency >= 1
    ensures var u := SentState(c, s, key);
            && Enabled(c, u, AcquireSlot(0))
            && Next(c, u, AcquireSlot(0))
               == u.(pool := u.pool.(dispatchers := [Idle(false)], sem := 1,
                                     workers := s.pool.workers + [Worker(|s.sends|, TaskPool.Querying, [])]))
  {
    hide EnsureNode, InCall;
    var u := SentState(c, s, key);
    assert u.pool.dispatchers == [Holding(|s.sends|, false)];
    assert u.pool.dispatchers[0 := Idle(false)] == [Idle(false)];
  }

  // ---------------------------------------------------------------- what the worker does

  /** The turn that succeeds. */
  const COMPLETE := Tick(Percents(["100%"]), true)

  predicate Fresh(s: State, w: nat, r: nat) {
    && w < |s.pool.workers| && s.pool.workers[w].stage.Querying? && s.pool.workers[w].task < |s.sends|
    && var cr := s.sends[s.pool.workers[w].task].cr; Lookup(s.rows, cr.taskId, cr.index) == [r] && r < |s.rows|
  }

  function SuccessSteps(w: nat): seq<Step> {
    [QueryRow(w, true), StartRestore(w, true, true)] + [Poll(w, COMPLETE)] + [Report(w, false)] + [FreeSlot(w)]
  }

  /** The pool when worker w has succeeded in one turn and the one slot taken is free again. */
  function DonePool(pool: Pool, w: nat): Pool
    requires w < |pool.workers|
  {
    pool.(sem := 0, workers := pool.workers[w := Worker(pool.workers[w].task, Released(true), [COMPLETE])])
  }

  /** The worker succeeds, its status write fails, and it frees its slot. */
  lemma WorkerSucceeds(c: Config, s: State, w: nat, r: nat)
    requires Fresh(s, w, r) && s.pool.sem == 1 && c.limits.maxPolls >= 1
    ensures Run(c, s, SuccessSteps(w))
         == Some(s.(rows := WithStatus(s.rows, r, SUCCESS),
                    pool := DonePool(s.pool, w)))
  {
    hide Lookup;
    var cr := s.sends[s.pool.workers[w].task].cr;
    assert Lookup(s.rows, cr.taskId, cr.index)[0] == r;
    WorkerStarts(c, s, w, cr, true, true);
    var one := AtStage(s, w, PollingRow(r), []).(rows := s.rows);
    AfterStart(c, s, w, r);
    var two := [QueryRow(w, true), StartRestore(w, true, true)];
    hide Run, Next, Enabled, Fresh, AtStage;
    RunAppend(c, s, two, Poll(w, COMPLETE));
    RunAppend(c, s, two + [Poll(w, COMPLETE)], Report(w, false));
    RunAppend(c, s, two + [Poll(w, COMPLETE)] + [Report(w, false)], FreeSlot(w));
  }

  lemma AfterStart(c: Config, s: State, w: nat, r: nat)
    requires Fresh(s, w, r) && s.pool.sem == 1 && c.limits.maxPolls >= 1
    ensures var one := AtStage(s, w, PollingRow(r), []).(rows := s.rows);
            && Enabled(c, one, Poll(w, COMPLETE))
            && var two := Next(c, one, Poll(w, COMPLETE));
               && Enabled(c, two, Report(w, false))
               && var three := Next(c, two, Report(w, false));
                  && Enabled(c, three, FreeSlot(w))
                  && Next(c, three, FreeSlot(w))
                     == s.(rows := WithStatus(s.rows, r, SUCCESS),
                           pool := DonePool(s.pool, w))
  {
    hide Lookup;
    var task := s.pool.workers[w].task;
    var one := AtStage(s, w, PollingRow(r), []).(rows := s.rows);
    assert Decisive(COMPLETE);
    OneTurn(c, s, w, r, [], COMPLETE);
    assert one == AtStage(s, w, PollingRow(r), []);
    assert [] + [COMPLETE] == [COMPLETE];
    Reports(c, s, w, WithStatus(s.rows, r, SUCCESS));
  }

  lemma Reports(c: Config, s: State, w: nat, rows: seq<TaskRow>)
    requires w < |s.pool.workers| && s.pool.workers[w].task < |s.sends| && s.pool.sem == 1
    ensures var two := AtStage(s, w, Reporting(true), [COMPLETE]).(rows := rows);
            && Enabled(c, two, Report(w, false))
            && var three := Next(c, two, Report(w, false));
               && Enabled(c, three, FreeSlot(w))
               && Next(c, three, FreeSlot(w))
                  == s.(rows := rows,
                        pool := DonePool(s.pool, w))
  {
    var task := s.pool.workers[w].task;
    var reported := Worker(task, Reported(true), [COMPLETE]);
    UpdateTwice(s.pool.workers, w, Worker(task, Reporting(true), [COMPLETE]), reported);
    UpdateTwice(s.pool.workers, w, reported, Worker(task, Released(true), [COMPLETE]));
  }

  /** The worker cannot start its restore and stores FAILED. */
  lemma WorkerFails(c: Config, s: State, w: nat, r: nat)
    requires Fresh(s, w, r)
    ensures var steps := [QueryRow(w, true), StartRestore(w, false, true)];
            && Run(c, s, steps).Some?
            && var t := Run(c, s, steps).value;
               && t.rows == WithStatus(s.rows, r, FAILED) && t.sends == s.sends
               && |t.pool.workers| == |s.pool.workers|
               && forall v | 0 <= v < |s.pool.workers| && v != w :: t.pool.workers[v] == s.pool.workers[v]
  {
    hide Lookup;
    var cr := s.sends[s.pool.workers[w].task].cr;
    assert Lookup(s.rows, cr.taskId, cr.index)[0] == r;
    WorkerStarts(c, s, w, cr, false, true);
    hide Run;
  }

  // ---------------------------------------------------------------- the second worker

  /** One task is done and stored, and a key for the same row waits. */
  predicate DoneOnce(c: Config, s: State, key: Key) {
    && StartingFor(c, s, key)
    && s.rows == [TaskRow("task", "a", SUCCESS)]
    && |s.sends| == 1 && s.sends[0].cr.taskId == "task" && s.sends[0].cr.index == "a"
    && s.pool.workers == [Worker(0, Released(true), [COMPLETE])]
    && s.crs[key].taskId == "task" && s.crs[key].index == "a"
  }

  lemma OneRow(status: string)
    ensures Lookup([TaskRow("task", "a", status)], "task", "a") == [0]
  {
    var rows := [TaskRow("task", "a", status)];
    assert rows[..0] == [] && Lookup(rows[..0], "task", "a") == [];
  }

  lemma SecondWorkerOverwrites(c: Config, s: State, key: Key) returns (steps: seq<Step>)
    requires DoneOnce(c, s, key) && c.limits.concurrency >= 1
    ensures LosesIn(c, s, steps, 0) && Inner(c, steps)
  {
    var started := TaskGetsWorker(c, s, key);
    var t := Run(c, s, started).value;
    GetsOwnSend(c, s, key);
    OneRow(SUCCESS);
    OneRow(FAILED);
    hide Run, SentState, Lookup, InCall, EnsureFor;
    assert t.pool.workers[1] == Worker(1, TaskPool.Querying, []);
    WorkerFails(c, t, 1, 0);
    var failing := [QueryRow(1, true), StartRestore(1, false, true)];
    RunConcat(c, s, started, failing);
    InnerConcat(c, started, failing);
    steps := started + failing;
    var u := Run(c, s, steps).value;
    assert u.rows == [TaskRow("task", "a", FAILED)];
    assert u.pool.workers[0] == s.pool.workers[0];
    assert TasksSent(u) by {
      SentTasks(c, t, failing, u);
    }
  }

  lemma GetsOwnSend(c: Config, s: State, key: Key)
    requires Idling(s) && Waits(s, key) && EnsureFor(c, s, key).Ok?
    ensures var u := SentState(c, s, key);
            u.rows == s.rows && |u.sends| == |s.sends| + 1 && s.sends <= u.sends && u.sends[|s.sends|].cr == s.crs[key]
  {
    hide EnsureNode;
  }

  /** The steps of a failing worker leave the tasks of workers where they are. */
  lemma SentTasks(c: Config, t: State, failing: seq<Step>, u: State)
    requires t.pool.workers == [Worker(0, Released(true), [COMPLETE]), Worker(1, TaskPool.Querying, [])]
    requires |t.sends| == 2 && failing == [QueryRow(1, true), StartRestore(1, false, true)]
    requires Run(c, t, failing) == Some(u)
    ensures TasksSent(u)
  {
    var one := [QueryRow(1, true)];
    assert failing[..1] == one && one[..0] == [];
    assert Run(c, t, one) == Some(Next(c, t, QueryRow(1, true)));
    WorkerMoves(c, t, QueryRow(1, true));
    WorkerMoves(c, Next(c, t, QueryRow(1, true)), StartRestore(1, false, true));
    hide Next, Enabled;
  }

  // ---------------------------------------------------------------- runs from the start

  lemma NodeStands(name: string, size: string, count: nat, other: nat, code: ResizeCode)
    requires BinarySize(size)
    ensures EnsureNode([NodeSet(name, other, [Bytes(size)])], name, size, count, code)
         == Ok(([NodeSet(name, other, [Bytes(size)])], Bytes(size)))
  {
    hide BinarySize, Bytes, EnsureNode;
    var node := NodeSet(name, other, [Bytes(size)]);
    assert [] + [node] == [node];
    if code.Repaired? {
      EnsureLarger([], node, size, count);
      assert node.(claims := [Bytes(size)]) == node;
    } else {
      AsWrittenStep([], node, size, count);
    }
  }

  /** The first task, from the start to its stored success. */
  lemma FirstTaskSucceeds(c: Config, n: nat, size: string) returns (steps: seq<Step>)
    requires n >= 1 && c.limits.concurrency >= 1 && c.limits.maxPolls >= 1 && BinarySize(size)
    ensures Run(c, Init(n, [false], []), ArriveSteps(0, "a", "x", size) + steps).Some? && Inner(c, steps)
    ensures FirstIsDone(c, Run(c, Init(n, [false], []), ArriveSteps(0, "a", "x", size) + steps).value, size)
  {
    var start := Init(n, [false], []);
    Arrives(c, start, "a", "x", size);
    var s := Arrived(start, "a", "x", size);
    SizeIsQuantity(size);
    FirstSent(c, n, size);
    hide BinarySize, Bytes, QuantityBytes, Init, Arrived, SentState, EnsureFor, InCall, Run;
    var started := TaskGetsWorker(c, s, "a");
    var t, u := Run(c, s, started).value, SentState(c, s, "a");
    FirstWorkerIsFresh(t, u);
    WorkerSucceeds(c, t, 0, 0);
    RunConcat(c, s, started, SuccessSteps(0));
    RunConcat(c, start, ArriveSteps(0, "a", "x", size), started + SuccessSteps(0));
    SuccessIsInner(c);
    InnerConcat(c, started, SuccessSteps(0));
    steps := started + SuccessSteps(0);
    EndsDone(c, u, size, Run(c, start, ArriveSteps(0, "a", "x", size) + steps).value);
  }

  lemma SuccessIsInner(c: Config)
    ensures Inner(c, SuccessSteps(0))
  {
  }

  lemma FirstWorkerIsFresh(t: State, u: State)
    requires u.rows == [TaskRow("task", "a", "")] && |u.sends| == 1
    requires u.sends[0].cr.taskId == "task" && u.sends[0].cr.index == "a"
    requires t == u.(pool := u.pool.(dispatchers := [Idle(false)], sem := 1,
                                     workers := [] + [Worker(0, TaskPool.Querying, [])]))
    ensures Fresh(t, 0, 0)
  {
    OneRow("");
    hide Lookup;
    assert t.pool.workers[0] == Worker(0, TaskPool.Querying, []);
  }

  lemma EndsDone(c: Config, u: State, size: string, end: State)
    requires BinarySize(size) && SentFirst(c, u, size)
    requires end == u.(rows := WithStatus(u.rows, 0, SUCCESS),
                       pool := DonePool(u.pool.(dispatchers := [Idle(false)], sem := 1,
                                                workers := [] + [Worker(0, TaskPool.Querying, [])]), 0))
    ensures FirstIsDone(c, end, size)
  {
    SizeIsQuantity(size);
    hide BinarySize, Bytes, QuantityBytes;
    assert end.pool.workers == [Worker(0, Released(true), [COMPLETE])];
    assert end.rows == [TaskRow("task", "a", SUCCESS)];
  }

  /** The state in which the first task has been sent. */
  predicate SentFirst(c: Config, u: State, size: string) {
    && u.calls != [] && (forall i | 0 <= i < |u.calls| :: u.calls[i].Free?) && u.pending == {}
    && u.used == {"a"} && u.crs.Keys == {"a"} && SameTask(u.crs["a"], NewCR("a", "x", size))
    && QuantityBytes(size).Some?
    && u.nodeSets == [NodeSet("x", c.nodeCount, [QuantityBytes(size).value])]
    && u.rows == [TaskRow("task", "a", "")] && |u.sends| == 1 && u.sends[0].cr == NewCR("a", "x", size)
    && u.pool.queue == [] && u.pool.sent == 1
  }

  lemma SizeIsQuantity(size: string)
    requires BinarySize(size)
    ensures QuantityBytes(size) == Some(Bytes(size))
  {
    ComparedAsBytes(size, 0);
  }

  lemma FirstSent(c: Config, n: nat, size: string)
    requires n >= 1 && QuantityBytes(size).Some?
    ensures var s := Arrived(Init(n, [false], []), "a", "x", size);
            && Idling(s) && Waits(s, "a") && EnsureFor(c, s, "a").Ok?
            && s.pool.sem == 0 && s.pool.sent == |s.sends| == 0 && s.pool.workers == []
            && SentFirst(c, SentState(c, s, "a"), size)
  {
    NewNode("x", size, c.nodeCount, c.code.resize);
    hide EnsureNode, QuantityBytes;
    var s := Arrived(Init(n, [false], []), "a", "x", size);
    assert !InCall(s, "a");
  }

  // ---------------------------------------------------------------- events and resources of these runs

  lemma {:induction false} NoticesConcat(a: seq<Step>, b: seq<Step>, key: Key)
    ensures Notices(a + b, key) == Notices(a, key) + Notices(b, key)
  {
    if b == [] {
      assert a + b == a;
    } else {
      assert (a + b)[..|a + b| - 1] == a + b[..|b| - 1];
      NoticesConcat(a, b[..|b| - 1], key);
    }
  }

  lemma {:induction false} KeyRowsConcat(a: seq<Step>, b: seq<Step>)
    ensures KeyRows(a + b) == KeyRows(a) + KeyRows(b)
  {
    if b == [] {
      assert a + b == a;
    } else {
      assert (a + b)[..|a + b| - 1] == a + b[..|b| - 1];
      KeyRowsConcat(a, b[..|b| - 1]);
    }
  }

  lemma {:induction false} InnerBringsNothing(c: Config, steps: seq<Step>, key: Key)
    requires Inner(c, steps)
    ensures Notices(steps, key) == 0 && KeyRows(steps) == map[]
  {
    if steps == [] {
    } else {
      assert InnerStep(c, steps[|steps| - 1]);
      assert Inner(c, steps[..|steps| - 1]);
      InnerBringsNothing(c, steps[..|steps| - 1], key);
    }
  }

  lemma OneStep(step: Step, key: Key)
    ensures Notices([step], key) == One(step == Notice(key))
    ensures KeyRows([step]) == if step.CreateCR? then map[step.key := step.row] else map[]
  {
    assert [step][..0] == [];
  }

  lemma ArriveBrings(node: string, size: string, key: Key)
    ensures Notices(ArriveSteps(0, "a", node, size), key) == One(key == "a")
    ensures KeyRows(ArriveSteps(0, "a", node, size)) == map["a" := 0]
  {
    var row, create, notice := CreateRow("task", "a", ""), CreateCR(0, "a", node, size), Notice("a");
    assert ArriveSteps(0, "a", node, size) == [row] + [create] + [notice];
    NoticesConcat([row] + [create], [notice], key);
    NoticesConcat([row], [create], key);
    KeyRowsConcat([row] + [create], [notice]);
    KeyRowsConcat([row], [create]);
    OneStep(row, key);
    OneStep(create, key);
    OneStep(notice, key);
    hide Notices, KeyRows;
  }

  /** What a run brings in: the first task, inner steps, something more, an event, inner steps. */
  lemma RunBrings(c: Config, size: string, inner: seq<Step>, extra: seq<Step>, again: Key, more: seq<Step>, key: Key)
    requires Inner(c, inner) && Inner(c, more)
    ensures var steps := ArriveSteps(0, "a", "x", size) + inner + extra + [Notice(again)] + more;
            && Notices(steps, key) == One(key == "a") + Notices(extra, key) + One(key == again)
            && KeyRows(steps) == map["a" := 0] + KeyRows(extra)
  {
    var one := ArriveSteps(0, "a", "x", size);
    ArriveBrings("x", size, key);
    InnerBringsNothing(c, inner, key);
    InnerBringsNothing(c, more, key);
    OneStep(Notice(again), key);
    hide Notices, KeyRows, ArriveSteps, Inner;
    NoticesConcat(one, inner, key);
    NoticesConcat(one + inner, extra, key);
    NoticesConcat(one + inner + extra, [Notice(again)], key);
    NoticesConcat(one + inner + extra + [Notice(again)], more, key);
    KeyRowsConcat(one, inner);
    KeyRowsConcat(one + inner, extra);
    KeyRowsConcat(one + inner + extra, [Notice(again)]);
    KeyRowsConcat(one + inner + extra + [Notice(again)], more);
  }

  /** Some run within these limits loses a stored success. */
  ghost predicate CanLose(c: Config, reconcilers: nat, resources: nat, events: nat) {
    exists bound: seq<bool>, sets: seq<NodeSet>, steps: seq<Step>, w: nat ::
      LosesWithin(c, Init(reconcilers, bound, sets), steps, w, resources, events)
  }

  ghost predicate LosesWithin(c: Config, s: State, steps: seq<Step>, w: nat, resources: nat, events: nat) {
    LosesIn(c, s, steps, w) && Limited(steps, resources, events)
  }

  /** The run goes on behind another. */
  lemma LosesLater(c: Config, start: State, front: seq<Step>, rest: seq<Step>)
    requires Run(c, start, front).Some? && LosesIn(c, Run(c, start, front).value, rest, 0)
    ensures LosesIn(c, start, front + rest, 0)
  {
    RunConcat(c, start, front, rest);
    hide Run, RowSaysSuccess, TasksSent;
  }

  /** From the stored success of the first task on: a key for its row arrives, and overwrites it. */
  lemma Overwritten(c: Config, n: nat, size: string, inner: seq<Step>, extra: seq<Step>, again: Key)
    returns (more: seq<Step>)
    requires c.limits.concurrency >= 1 && Inner(c, inner)
    requires Run(c, Init(n, [false], []), ArriveSteps(0, "a", "x", size) + inner + extra + [Notice(again)]).Some?
    requires DoneOnce(c, Run(c, Init(n, [false], []),
                             ArriveSteps(0, "a", "x", size) + inner + extra + [Notice(again)]).value, again)
    ensures Inner(c, more)
    ensures LosesIn(c, Init(n, [false], []),
                    ArriveSteps(0, "a", "x", size) + inner + extra + [Notice(again)] + more, 0)
  {
    var front := ArriveSteps(0, "a", "x", size) + inner + extra + [Notice(again)];
    more := SecondWorkerOverwrites(c, Run(c, Init(n, [false], []), front).value, again);
    LosesLater(c, Init(n, [false], []), front, more);
  }

  /** One resource, two events. */
  lemma SecondEventOverwrites(c: Config, n: nat, size: string)
    requires n >= 1 && c.limits.concurrency >= 1 && c.limits.maxPolls >= 1 && BinarySize(size)
    ensures CanLose(c, n, 1, 2)
  {
    hide BinarySize;
    var inner := FirstTaskSucceeds(c, n, size);
    var more := EventOverwrites(c, n, size, inner);
    var steps := ArriveSteps(0, "a", "x", size) + inner + [] + [Notice("a")] + more;
    EventLimits(c, size, inner, more);
    hide LosesIn, Limited, ArriveSteps, Run, Init;
    assert LosesWithin(c, Init(n, [false], []), steps, 0, 1, 2);
  }

  lemma EventOverwrites(c: Config, n: nat, size: string, inner: seq<Step>) returns (more: seq<Step>)
    requires c.limits.concurrency >= 1 && BinarySize(size) && Inner(c, inner)
    requires Run(c, Init(n, [false], []), ArriveSteps(0, "a", "x", size) + inner).Some?
    requires FirstIsDone(c, Run(c, Init(n, [false], []), ArriveSteps(0, "a", "x", size) + inner).value, size)
    ensures Inner(c, more)
    ensures LosesIn(c, Init(n, [false], []),
                    ArriveSteps(0, "a", "x", size) + inner + [] + [Notice("a")] + more, 0)
  {
    hide Run, Init, BinarySize, ArriveSteps, Inner, LosesIn;
    var start, front := Init(n, [false], []), ArriveSteps(0, "a", "x", size) + inner;
    KeyComesBack(c, Run(c, start, front).value, size);
    hide FirstIsDone, DoneOnce;
    RunAppend(c, start, front, Notice("a"));
    assert front + [] == front;
    more := Overwritten(c, n, size, inner, [], "a");
  }

  lemma EventLimits(c: Config, size: string, inner: seq<Step>, more: seq<Step>)
    requires Inner(c, inner) && Inner(c, more)
    ensures Limited(ArriveSteps(0, "a", "x", size) + inner + [] + [Notice("a")] + more, 1, 2)
  {
    var steps := ArriveSteps(0, "a", "x", size) + inner + [] + [Notice("a")] + more;
    hide Inner, ArriveSteps;
    forall key
      ensures Notices(steps, key) <= 2
    {
      RunBrings(c, size, inner, [], "a", more, key);
    }
    RunBrings(c, size, inner, [], "a", more, "a");
    OneResourceAtMost(steps);
  }

  lemma OneResourceAtMost(steps: seq<Step>)
    requires KeyRows(steps) == map["a" := 0] + KeyRows([])
    ensures forall row: nat :: |ResourcesOf(steps, row)| <= 1
  {
    forall row: nat
      ensures |ResourcesOf(steps, row)| <= 1
    {
      assert ResourcesOf(steps, row) <= {"a"};
      SmallSet(ResourcesOf(steps, row), {"a"});
    }
  }

  lemma SmallSet<T>(a: set<T>, b: set<T>)
    requires a <= b
    ensures |a| <= |b|
  {
    assert b == a + (b - a);
  }

  /** The event that makes it happen. */
  lemma KeyComesBack(c: Config, t: State, size: string)
    requires BinarySize(size) && FirstIsDone(c, t, size)
    ensures Enabled(c, t, Notice("a")) && DoneOnce(c, Next(c, t, Notice("a")), "a")
  {
    hide BinarySize, Bytes, EnsureNode;
    var v := t.(noticed := t.noticed + {"a"}, pending := {"a"});
    assert Enabled(c, t, Notice("a")) && Next(c, t, Notice("a")) == v;
    hide Next, Enabled;
    AddedIsDone(c, t, v, "a", size);
  }

  /** What FirstTaskSucceeds leaves. */
  predicate FirstIsDone(c: Config, t: State, size: string)
    requires BinarySize(size)
  {
    && Idling(t) && t.pool.sem == 0 && t.pool.sent == |t.sends| && t.pending == {}
    && (forall i | 0 <= i < |t.calls| :: t.calls[i].Free?)
    && t.used == {"a"} && t.crs.Keys == {"a"} && SameTask(t.crs["a"], NewCR("a", "x", size))
    && t.nodeSets == [NodeSet("x", c.nodeCount, [Bytes(size)])]
    && t.rows == [TaskRow("task", "a", SUCCESS)]
    && |t.sends| == 1 && t.sends[0].cr.taskId == "task" && t.sends[0].cr.index == "a"
    && t.pool.workers == [Worker(0, Released(true), [COMPLETE])]
  }

  /** Two resources, one event each. */
  lemma SecondResourceOverwrites(c: Config, n: nat, size: string)
    requires n >= 1 && c.limits.concurrency >= 1 && c.limits.maxPolls >= 1 && BinarySize(size)
    ensures CanLose(c, n, 2, 1)
  {
    hide BinarySize;
    var inner := FirstTaskSucceeds(c, n, size);
    var more := ResourceOverwrites(c, n, size, inner);
    var steps := ArriveSteps(0, "a", "x", size) + inner + [CreateCR(0, "b", "x", size)] + [Notice("b")] + more;
    ResourceLimits(c, size, inner, more);
    hide LosesIn, Limited, ArriveSteps, Run, Init;
    assert LosesWithin(c, Init(n, [false], []), steps, 0, 2, 1);
  }

  lemma ResourceOverwrites(c: Config, n: nat, size: string, inner: seq<Step>) returns (more: seq<Step>)
    requires c.limits.concurrency >= 1 && BinarySize(size) && Inner(c, inner)
    requires Run(c, Init(n, [false], []), ArriveSteps(0, "a", "x", size) + inner).Some?
    requires FirstIsDone(c, Run(c, Init(n, [false], []), ArriveSteps(0, "a", "x", size) + inner).value, size)
    ensures Inner(c, more)
    ensures LosesIn(c, Init(n, [false], []),
                    ArriveSteps(0, "a", "x", size) + inner + [CreateCR(0, "b", "x", size)] + [Notice("b")] + more, 0)
  {
    hide Run, Init, BinarySize, ArriveSteps, Inner, LosesIn;
    var start, front := Init(n, [false], []), ArriveSteps(0, "a", "x", size) + inner;
    var create := CreateCR(0, "b", "x", size);
    KeyIsAdded(c, Run(c, start, front).value, size);
    hide FirstIsDone, DoneOnce;
    RunAppend(c, start, front, create);
    RunAppend(c, start, front + [create], Notice("b"));
    more := Overwritten(c, n, size, inner, [create], "b");
  }

  lemma ResourceLimits(c: Config, size: string, inner: seq<Step>, more: seq<Step>)
    requires Inner(c, inner) && Inner(c, more)
    ensures Limited(ArriveSteps(0, "a", "x", size) + inner + [CreateCR(0, "b", "x", size)] + [Notice("b")] + more, 2, 1)
  {
    var create := CreateCR(0, "b", "x", size);
    var steps := ArriveSteps(0, "a", "x", size) + inner + [create] + [Notice("b")] + more;
    hide Inner, ArriveSteps;
    forall key
      ensures Notices(steps, key) <= 1
    {
      RunBrings(c, size, inner, [create], "b", more, key);
      OneStep(create, key);
    }
    RunBrings(c, size, inner, [create], "b", more, "a");
    OneStep(create, "a");
    TwoResourcesAtMost(steps);
  }

  lemma TwoResourcesAtMost(steps: seq<Step>)
    requires KeyRows(steps) == map["a" := 0] + map["b" := 0]
    ensures forall row: nat :: |ResourcesOf(steps, row)| <= 2
  {
    forall row: nat
      ensures |ResourcesOf(steps, row)| <= 2
    {
      assert ResourcesOf(steps, row) <= {"a", "b"};
      SmallSet(ResourcesOf(steps, row), {"a", "b"});
    }
  }

  /** The resource and the event that make it happen. */
  lemma KeyIsAdded(c: Config, t: State, size: string)
    requires BinarySize(size) && FirstIsDone(c, t, size)
    ensures var create := CreateCR(0, "b", "x", size);
            && Enabled(c, t, create) && Enabled(c, Next(c, t, create), Notice("b"))
            && DoneOnce(c, Next(c, Next(c, t, create), Notice("b")), "b")
  {
    hide BinarySize, Bytes, EnsureNode;
    var create := CreateCR(0, "b", "x", size);
    assert t.rows[0] == TaskRow("task", "a", SUCCESS);
    var u := t.(crs := t.crs["b" := CR("task", "a", "x", size, false, None)], used := t.used + {"b"});
    assert Enabled(c, t, create) && Next(c, t, create) == u;
    var v := u.(noticed := u.noticed + {"b"}, pending := {"b"});
    assert Enabled(c, u, Notice("b")) && Next(c, u, Notice("b")) == v;
    hide Next, Enabled;
    AddedIsDone(c, t, v, "b", size);
  }

  lemma AddedIsDone(c: Config, t: State, v: State, key: Key, size: string)
    requires BinarySize(size) && FirstIsDone(c, t, size)
    requires v.rows == t.rows && v.calls == t.calls && v.sends == t.sends
    requires v.nodeSets == t.nodeSets && v.pool == t.pool
    requires v.pending == {key} && key in v.crs && SameTask(v.crs[key], NewCR("a", "x", size))
    ensures DoneOnce(c, v, key)
  {
    NodeStands("x", size, c.nodeCount, c.nodeCount, c.code.resize);
    hide BinarySize, Bytes, EnsureNode;
    assert !InCall(v, key);
  }

  // ---------------------------------------------------------------- the exact condition

  /** Without a tick nobody ever succeeds. */
  predicate NobodySucceeds(s: State) {
    forall w | 0 <= w < |s.pool.workers| :: !Succeeds(s.pool.workers[w].stage)
  }

  lemma NobodySucceedsStep(c: Config, s: State, step: Step)
    requires NobodySucceeds(s) && RowsFirst(s) && Enabled(c, s, step) && c.limits.maxPolls == 0
    ensures NobodySucceeds(Next(c, s, step))
  {
    var t := Next(c, s, step);
    WorkersMove(c, s, step);
    forall w | 0 <= w < |t.pool.workers|
      ensures !Succeeds(t.pool.workers[w].stage)
    {
      if WorkerStep(c, s, step) && step.worker == w && Succeeds(t.pool.workers[w].stage) {
        OnlyPollSucceeds(c, s, step);
        PollWithoutTicks(c, s, step);
      }
    }
    hide Next, Enabled, RowsFirst;
  }

  lemma PollWithoutTicks(c: Config, s: State, step: Step)
    requires Enabled(c, s, step) && step.Poll? && c.limits.maxPolls == 0
    ensures step.worker < |Next(c, s, step).pool.workers|
    ensures !Succeeds(Next(c, s, step).pool.workers[step.worker].stage)
  {
  }

  lemma {:induction false} NobodySucceedsRun(c: Config, s: State, steps: seq<Step>)
    requires NobodySucceeds(s) && Safe(c, s) && Run(c, s, steps).Some? && c.limits.maxPolls == 0
    ensures NobodySucceeds(Run(c, s, steps).value)
  {
    hide NobodySucceeds, Safe, Enabled, Next;
    if steps == [] {
    } else {
      var front := steps[..|steps| - 1];
      NobodySucceedsRun(c, s, front);
      SafeRun(c, s, front);
      SafeHasRows(c, Run(c, s, front).value);
      NobodySucceedsStep(c, Run(c, s, front).value, steps[|steps| - 1]);
    }
  }

  lemma SafeHasRows(c: Config, s: State)
    requires Safe(c, s)
    ensures RowsFirst(s)
  {
  }

  /** Nothing is sent without a resource, or without an event. */
  lemma SendingNeedsBoth(c: Config, n: nat, bound: seq<bool>, sets: seq<NodeSet>, steps: seq<Step>,
                         resources: nat, events: nat)
    requires Run(c, Init(n, bound, sets), steps).Some? && Limited(steps, resources, events)
    requires Run(c, Init(n, bound, sets), steps).value.sends != []
    ensures resources >= 1 && events >= 1
  {
    var start := Init(n, bound, sets);
    var s := Run(c, start, steps).value;
    SafeInit(c, n, bound, sets);
    assert Traced(start, map[]);
    TracedRun(c, start, steps);
    var key := s.sends[0].key;
    SendsAreNoticed(c, n, bound, sets, steps, key);
    hide Run, Init, Safe;
    assert OfRow(s, KeyRows(steps), key, s.sends[0].cr);
    assert key in ResourcesOf(steps, KeyRows(steps)[key]) && 0 in SentFor(s, key);
    assert |ResourcesOf(steps, KeyRows(steps)[key])| <= resources && Notices(steps, key) <= events;
    NotEmpty(ResourcesOf(steps, KeyRows(steps)[key]), key);
    NotEmpty(SentFor(s, key), 0);
    hide ResourcesOf, SentFor, Notices, KeyRows;
  }

  lemma NotEmpty<T>(xs: set<T>, x: T)
    requires x in xs
    ensures |xs| >= 1
  {
    assert xs == {x} + (xs - {x});
  }

  lemma LimitedMore(steps: seq<Step>, r: nat, e: nat, resources: nat, events: nat)
    requires Limited(steps, r, e) && r <= resources && e <= events
    ensures Limited(steps, resources, events)
  {
    hide Notices, ResourcesOf;
  }

  lemma CanLoseMore(c: Config, n: nat, r: nat, e: nat, resources: nat, events: nat)
    requires CanLose(c, n, r, e) && r <= resources && e <= events
    ensures CanLose(c, n, resources, events)
  {
    hide LosesIn, Limited, Init;
    var bound: seq<bool>, sets: seq<NodeSet>, steps: seq<Step>, w: nat :|
      LosesWithin(c, Init(n, bound, sets), steps, w, r, e);
    LimitedMore(steps, r, e, resources, events);
    assert LosesWithin(c, Init(n, bound, sets), steps, w, resources, events);
  }

  lemma LosingNeeds(c: Config, n: nat, bound: seq<bool>, sets: seq<NodeSet>, steps: seq<Step>, w: nat,
                    resources: nat, events: nat)
    requires LosesWithin(c, Init(n, bound, sets), steps, w, resources, events)
    ensures n >= 1 && c.limits.concurrency >= 1 && c.limits.maxPolls >= 1
    ensures (resources >= 1 && events >= 2) || (resources >= 2 && events >= 1)
  {
    hide RowSaysSuccess, Limited;
    var start := Init(n, bound, sets);
    var s := Run(c, start, steps).value;
    assert s.sends != [] by {
      assert s.pool.workers[w].task < |s.sends|;
    }
    SafeInit(c, n, bound, sets);
    NothingYet(n, bound, sets);
    hide Init, Run, Safe;
    SendingNeedsBoth(c, n, bound, sets, steps, resources, events);
    if n == 0 {
      NothingSentWithoutCalls(c, start, steps);
    } else if c.limits.concurrency == 0 {
      NoSlotNoWorker(c, start, steps);
    } else if c.limits.maxPolls == 0 {
      NobodySucceedsRun(c, start, steps);
    } else if resources <= 1 && events <= 1 {
      LimitedMore(steps, resources, events, 1, 1);
      DoneStaysStored(c, n, bound, sets, steps, w);
    }
  }

  lemma NothingYet(n: nat, bound: seq<bool>, sets: seq<NodeSet>)
    ensures var s := Init(n, bound, sets);
            NobodySucceeds(s) && s.sends == [] && s.pool.workers == [] && (n == 0 ==> s.calls == [])
  {
  }

  /**
   * A stored success is overwritten in some run, in which each row has at most so many resources and
   * each resource at most so many events, exactly when two events of one resource are allowed, or two
   * resources of one row, and a task can succeed at all.
   */
  lemma SuccessIsLostExactly(c: Config, reconcilers: nat, resources: nat, events: nat)
    ensures CanLose(c, reconcilers, resources, events)
            <==> && reconcilers >= 1 && c.limits.concurrency >= 1 && c.limits.maxPolls >= 1
                 && ((resources >= 1 && events >= 2) || (resources >= 2 && events >= 1))
  {
    if reconcilers >= 1 && c.limits.concurrency >= 1 && c.limits.maxPolls >= 1 {
      var size := SomeBinarySize(0.0);
      hide CanLose, BinarySize;
      if resources >= 1 && events >= 2 {
        SecondEventOverwrites(c, reconcilers, size);
        CanLoseMore(c, reconcilers, 1, 2, resources, events);
      } else if resources >= 2 && events >= 1 {
        SecondResourceOverwrites(c, reconcilers, size);
        CanLoseMore(c, reconcilers, 2, 1, resources, events);
      }
    }
    if CanLose(c, reconcilers, resources, events) {
      CanLoseNeeds(c, reconcilers, resources, events);
    }
    hide CanLose, BinarySize;
  }

  lemma CanLoseNeeds(c: Config, n: nat, resources: nat, events: nat)
    requires CanLose(c, n, resources, events)
    ensures n >= 1 && c.limits.concurrency >= 1 && c.limits.maxPolls >= 1
    ensures (resources >= 1 && events >= 2) || (resources >= 2 && events >= 1)
  {
    hide LosesWithin, Init;
    var bound: seq<bool>, sets: seq<NodeSet>, steps: seq<Step>, w: nat :|
      LosesWithin(c, Init(n, bound, sets), steps, w, resources, events);
    LosingNeeds(c, n, bound, sets, steps, w, resources, events);
  }

  lemma SomeBinarySize(x: real) returns (size: string)
    requires x >= 0.0
    ensures BinarySize(size)
  {
    size := FormatGi(x);
    PublishedSizeIsStored(x);
    hide FormatGi, BinarySize;
  }
}
