/**
 * The annotation state machine on StatefulSets (internal/controller/controller.go): an outside
 * writer sets a task id and the state pending, Reconcile moves it to running and queues the task, a
 * worker moves it to done or failed if the task id is still its own. Both read the object and patch
 * it in two requests, between which anything may happen to it.
 */
module Annotations {
  import opened Wrappers

  type Key = string

  /** The two annotations; a missing one reads as "". */
  datatype Ann = Ann(taskId: string, state: string)

  /** ann is None when the object has no annotations at all. */
  datatype StatefulSet = StatefulSet(name: string, ann: Option<Ann>, owned: bool, ready: bool)

  datatype Task = Task(taskId: string, key: Key)

  const PENDING := "pending"
  const RUNNING := "running"

  // ---------------------------------------------------------------- event filters

  predicate Contains(s: string, sub: string) {
    sub <= s || (s != "" && Contains(s[1..], sub))
  }

  predicate Match(restoreKey: string, sts: StatefulSet) {
    && Contains(sts.name, restoreKey + "-")
    && sts.ann.Some? && sts.ann.value.taskId != "" && sts.ann.value.state != ""
    && sts.owned
  }

  predicate FilterCreate(restoreKey: string, sts: StatefulSet) {
    Match(restoreKey, sts)
  }

  predicate FilterUpdate(restoreKey: string, before: StatefulSet, after: StatefulSet) {
    before.ann.Some? && after.ann.Some? && before.ann != after.ann && Match(restoreKey, after)
  }

  // ---------------------------------------------------------------- reads and patches

  function AnnOf(sts: StatefulSet): Ann {
    if sts.ann.Some? then sts.ann.value else Ann("", "")
  }

  function InState(sts: StatefulSet, state: string): StatefulSet {
    sts.(ann := Some(AnnOf(sts).(state := state)))
  }

  type Objects = map<Key, StatefulSet>

  /** What Reconcile makes of the object it reads: the task id to start, or nothing. */
  function Plan(objs: Objects, key: Key): Option<string> {
    if key in objs && objs[key].ready && AnnOf(objs[key]).state == PENDING then Some(AnnOf(objs[key]).taskId) else None
  }

  /** What a worker makes of the object it reads: the state it is in, if the task id is still its own. */
  function Guard(objs: Objects, task: Task): Option<string> {
    if task.key in objs && AnnOf(objs[task.key]).taskId == task.taskId then Some(AnnOf(objs[task.key]).state) else None
  }

  /** The merge patch of a state that was read: it names the state alone, and nothing if that is the same. */
  function Patched(objs: Objects, key: Key, seen: string, state: string): Objects {
    if key !in objs || seen == state then objs else objs[key := InState(objs[key], state)]
  }

  function FinalState(ok: bool): string {
    if ok then "done" else "failed"
  }

  // ---------------------------------------------------------------- the code

  /** The objects of the cluster and the code that reads and patches them. In both methods the
      objects are as meanwhile says when the patch arrives. */
  class Store {
    var objs: Objects

    /** Reconcile up to its send: the task to queue, or none; again asks for the key to come back. */
    method Reconcile(key: Key, readOk: bool, meanwhile: Objects, patchOk: bool)
      returns (task: Option<Task>, again: bool)
      modifies this
      ensures var pending := readOk && key in old(objs) && old(objs)[key].ready
                             && AnnOf(old(objs)[key]).state == "pending";
              if !pending then objs == old(objs) && task == None && again == !readOk
              else if !patchOk || key !in meanwhile then objs == meanwhile && task == None && again
              else && objs == meanwhile[key := InState(meanwhile[key], "running")]
                   && task == Some(Task(AnnOf(old(objs)[key]).taskId, key)) && !again
    {
      task, again := None, false;
      if !readOk {
        return None, true;
      }
      if key !in objs {
        return;
      }
      var sts := objs[key];
      if !sts.ready {
        return;
      }
      var ann := AnnOf(sts);
      if ann.state != PENDING {
        return;
      }
      objs := meanwhile;
      if !patchOk || key !in objs {
        return None, true;
      }
      objs := objs[key := InState(objs[key], RUNNING)];
      task := Some(Task(ann.taskId, key));
    }

    method UpdateTaskStatus(task: Task, state: string, readOk: bool, meanwhile: Objects, patchOk: bool)
      modifies this
      ensures if !readOk || task.key !in old(objs) || AnnOf(old(objs)[task.key]).taskId != task.taskId
              then objs == old(objs)
              else if !patchOk || task.key !in meanwhile || AnnOf(old(objs)[task.key]).state == state
              then objs == meanwhile
              else objs == meanwhile[task.key := InState(meanwhile[task.key], state)]
    {
      if !readOk || task.key !in objs {
        return;
      }
      var ann := AnnOf(objs[task.key]);
      if ann.taskId != task.taskId {
        return;
      }
      objs := meanwhile;
      if patchOk && task.key in objs && ann.state != state {
        objs := objs[task.key := InState(objs[task.key], state)];
      }
    }

    /** What a worker does once its restore has ended, with an error or without. */
    method FinishTask(task: Task, ok: bool, readOk: bool, meanwhile: Objects, patchOk: bool)
      modifies this
      ensures var outcome := if ok then "done" else "failed";
              if !readOk || task.key !in old(objs) || AnnOf(old(objs)[task.key]).taskId != task.taskId
              then objs == old(objs)
              else if !patchOk || task.key !in meanwhile || AnnOf(old(objs)[task.key]).state == outcome
              then objs == meanwhile
              else objs == meanwhile[task.key := InState(meanwhile[task.key], outcome)]
    {
      UpdateTaskStatus(task, FinalState(ok), readOk, meanwhile, patchOk);
    }
  }

  // ---------------------------------------------------------------- the machine

  datatype Config = Config(restoreKey: string, capacity: nat)

  /** A Reconcile goroutine: it has read nothing yet, has read a pending task, or is about to send. */
  datatype Call = Free | Taken(key: Key) | Planned(key: Key, taskId: string) | Sending(key: Key, task: nat)

  /** A worker: restoring, or about to patch the state it has read its own task in. */
  datatype Worker = Waiting | Busy(task: nat) | Reporting(task: nat, seen: string, ok: bool)

  type Counter = map<Key, nat>

  function Count(m: Counter, key: Key): nat {
    if key in m then m[key] else 0
  }

  function Bump(m: Counter, key: Key): (n: Counter)
    ensures forall k :: Count(n, k) == Count(m, k) + if k == key then 1 else 0
  {
    m[key := Count(m, key) + 1]
  }

  /**
   * Tasks are numbered in the order in which Reconcile starts them. The counters count, for each
   * object, outside writes, create events, failed requests of Reconcile, and Reconcile runs.
   */
  datatype State = State(
    objs: Objects,
    used: set<string>,
    pending: set<Key>,
    calls: seq<Call>,
    queue: seq<nat>,
    workers: seq<Worker>,
    started: seq<Task>,
    finished: seq<nat>,
    writes: Counter, creates: Counter, failures: Counter, runs: Counter)

  datatype Step =
    // the outside
    | Write(key: Key, taskId: string, state: string)
    | SetReady(key: Key, ready: bool)
    | Create(key: Key, sts: StatefulSet)
    | CreateEvent(key: Key)
    | Delete(key: Key)
    // Reconcile
    | Take(call: nat, key: Key)
    | Read(call: nat, readOk: bool)
    | Patch(call: nat, patchOk: bool)
    | Send(call: nat)
    // workers
    | Receive(worker: nat)
    | Check(worker: nat, ok: bool, readOk: bool)
    | Report(worker: nat, patchOk: bool)

  predicate InCall(s: State, key: Key) {
    exists i | 0 <= i < |s.calls| :: s.calls[i] != Free && s.calls[i].key == key
  }

  /** Outside writers use a fresh task id for every write; objects are created without one. */
  predicate Enabled(c: Config, s: State, step: Step) {
    match step
    case Write(key, taskId, _) => key in s.objs && taskId != "" && taskId !in s.used
    case SetReady(key, _) => key in s.objs
    case Create(key, sts) => key !in s.objs && AnnOf(sts) == Ann("", "")
    case CreateEvent(key) => key in s.objs && FilterCreate(c.restoreKey, s.objs[key])
    case Delete(_) => true
    case Take(i, key) => i < |s.calls| && s.calls[i].Free? && key in s.pending && !InCall(s, key)
    case Read(i, _) => i < |s.calls| && s.calls[i].Taken?
    case Patch(i, _) => i < |s.calls| && s.calls[i].Planned?
    case Send(i) => i < |s.calls| && s.calls[i].Sending? && |s.queue| < c.capacity
    case Receive(w) => w < |s.workers| && s.workers[w].Waiting? && s.queue != []
    case Check(w, _, _) => w < |s.workers| && s.workers[w].Busy? && s.workers[w].task < |s.started|
    case Report(w, _) => w < |s.workers| && s.workers[w].Reporting? && s.workers[w].task < |s.started|
  }

  /** The change of one object, and the event it raises if the update filter lets it through. */
  function Changed(c: Config, s: State, key: Key, objs: Objects): State {
    s.(objs := objs,
       pending := if key in s.objs && key in objs && FilterUpdate(c.restoreKey, s.objs[key], objs[key])
                  then s.pending + {key} else s.pending)
  }

  /** An error puts the key back into the work queue. */
  function Requeued(s: State, i: nat): State
    requires i < |s.calls| && s.calls[i] != Free
  {
    var key := s.calls[i].key;
    s.(calls := s.calls[i := Free], pending := s.pending + {key}, failures := Bump(s.failures, key))
  }

  function AfterRead(s: State, i: nat, readOk: bool): State
    requires i < |s.calls| && s.calls[i].Taken?
  {
    if !readOk then Requeued(s, i)
    else
      var key := s.calls[i].key;
      match Plan(s.objs, key)
      case None => s.(calls := s.calls[i := Free])
      case Some(id) => s.(calls := s.calls[i := Planned(key, id)])
  }

  function AfterPatch(c: Config, s: State, i: nat, patchOk: bool): State
    requires i < |s.calls| && s.calls[i].Planned?
  {
    var Planned(key, id) := s.calls[i];
    if !patchOk || key !in s.objs then Requeued(s, i)
    else
      Changed(c, s, key, Patched(s.objs, key, PENDING, RUNNING))
      .(calls := s.calls[i := Sending(key, |s.started|)], started := s.started + [Task(id, key)])
  }

  function WorkerFree(s: State, w: nat): State
    requires w < |s.workers| && !s.workers[w].Waiting?
  {
    s.(workers := s.workers[w := Waiting], finished := s.finished + [s.workers[w].task])
  }

  function AfterCheck(s: State, w: nat, ok: bool, readOk: bool): State
    requires w < |s.workers| && s.workers[w].Busy? && s.workers[w].task < |s.started|
  {
    var n := s.workers[w].task;
    match if readOk then Guard(s.objs, s.started[n]) else None
    case None => WorkerFree(s, w)
    case Some(seen) => s.(workers := s.workers[w := Reporting(n, seen, ok)])
  }

  function AfterReport(c: Config, s: State, w: nat, patchOk: bool): State
    requires w < |s.workers| && s.workers[w].Reporting? && s.workers[w].task < |s.started|
  {
    var Reporting(n, seen, ok) := s.workers[w];
    var key := s.started[n].key;
    if patchOk then Changed(c, WorkerFree(s, w), key, Patched(s.objs, key, seen, FinalState(ok))) else WorkerFree(s, w)
  }

  function Next(c: Config, s: State, step: Step): State
    requires Enabled(c, s, step)
  {
    match step
    case Write(key, taskId, state) =>
      Changed(c, s, key, s.objs[key := s.objs[key].(ann := Some(Ann(taskId, state)))])
      .(used := s.used + {taskId}, writes := Bump(s.writes, key))
    case SetReady(key, ready) => Changed(c, s, key, s.objs[key := s.objs[key].(ready := ready)])
    case Create(key, sts) => s.(objs := s.objs[key := sts])
    case CreateEvent(key) => s.(pending := s.pending + {key}, creates := Bump(s.creates, key))
    case Delete(key) => s.(objs := s.objs - {key})
    case Take(i, key) =>
      s.(calls := s.calls[i := Taken(key)], pending := s.pending - {key}, runs := Bump(s.runs, key))
    case Read(i, readOk) => AfterRead(s, i, readOk)
    case Patch(i, patchOk) => AfterPatch(c, s, i, patchOk)
    case Send(i) => s.(calls := s.calls[i := Free], queue := s.queue + [s.calls[i].task])
    case Receive(w) => s.(workers := s.workers[w := Busy(s.queue[0])], queue := s.queue[1..])
    case Check(w, ok, readOk) => AfterCheck(s, w, ok, readOk)
    case Report(w, patchOk) => AfterReport(c, s, w, patchOk)
  }

  function Run(c: Config, s: State, steps: seq<Step>): Option<State> {
    if steps == [] then Some(s)
    else
      match Run(c, s, steps[..|steps| - 1])
      case None => None
      case Some(t) =>
        var last := steps[|steps| - 1];
        if Enabled(c, t, last) then Some(Next(c, t, last)) else None
  }

  /** Objects without task annotations, nothing queued and nobody at work. */
  predicate Quiet(s: State) {
    && (forall k | k in s.objs :: AnnOf(s.objs[k]) == Ann("", ""))
    && s.pending == {} && s.queue == [] && s.started == [] && s.finished == []
    && (forall i | 0 <= i < |s.calls| :: s.calls[i].Free?)
    && (forall w | 0 <= w < |s.workers| :: s.workers[w].Waiting?)
    && s.writes == s.creates == s.failures == s.runs == map[]
  }
}
