/**
 * The restore pipeline as a step system: requests write a task row and then a RestoreTask resource
 * (internal/http/handler.go), Reconcile calls turn resources into queued tasks, dispatchers and
 * workers restore them (internal/controller/controller/restoretask_controller.go). Every choice the
 * code does not make itself is a parameter of a step: failures of the API server, the database and
 * Elasticsearch, the state of the StatefulSet, the ready case a select takes, who runs next.
 */
module Pipeline {
  import opened Wrappers
  import opened NodeSets
  import opened Polling
  import opened TaskPool

  type Key = string

  /** Which faults of the code are repaired: the resize format, the owner test, the resource name in
      queued tasks and the write of the status subresource. */
  datatype Code = Code(resize: ResizeCode, ownerFixed: bool, keyFixed: bool, statusFixed: bool)

  datatype Config = Config(limits: Limits, code: Code, nodeCount: nat)

  /** A RestoreTask resource; status is None until a worker reports, Some(true) is done. */
  datatype CR = CR(taskId: string, index: string, node: string, size: string,
                   started: bool, status: Option<bool>)

  /** One Reconcile goroutine, by what it does next. */
  datatype Call =
    | Free
    | Taken(key: Key)
    | Loaded(key: Key, cr: CR)
    | Marked(key: Key, cr: CR)
    | Planned(key: Key, cr: CR, snapshot: seq<NodeSet>)
    | Sized(key: Key, cr: CR, seen: nat)
    | Sending(key: Key, cr: CR, seen: nat)

  /** What a task was sent with: its resource, and the storage its own Reconcile had read or written. */
  datatype SendRecord = SendRecord(key: Key, cr: CR, seen: nat)

  datatype State = State(
    rows: seq<TaskRow>,
    crs: map<Key, CR>,
    used: set<Key>,
    noticed: set<Key>,
    pending: set<Key>,
    calls: seq<Call>,
    nodeSets: seq<NodeSet>,
    sends: seq<SendRecord>,
    pool: Pool)

  datatype StatefulSet = Missing | Found(owned: bool, ready: bool)

  datatype Step =
    // the outside: requests, users, other writers, events
    | CreateRow(taskId: string, index: string, status: string)
    | CreateCR(row: nat, key: Key, node: string, size: string)
    | DeleteCR(key: Key)
    | EditNodes(sets: seq<NodeSet>)
    | Notice(key: Key)
    // Reconcile
    | Take(call: nat, key: Key)
    | Load(call: nat, ok: bool)
    | MarkStart(call: nat, ok: bool)
    | ReadCluster(call: nat, ok: bool)
    | PatchCluster(call: nat, ok: bool)
    | CheckNode(call: nat, sts: StatefulSet)
    | SendTask(call: nat)
    | HandTask(call: nat, dispatcher: nat)
    // dispatchers
    | ReceiveTask(dispatcher: nat)
    | ExitDispatcher(dispatcher: nat)
    | AcquireSlot(dispatcher: nat)
    // workers
    | QueryRow(worker: nat, ok: bool)
    | StartRestore(worker: nat, ok: bool, stored: bool)
    | Poll(worker: nat, turn: Turn)
    | Report(worker: nat, ok: bool)
    | FreeSlot(worker: nat)

  function Init(reconcilers: nat, bound: seq<bool>, nodeSets: seq<NodeSet>): State {
    State([], map[], {}, {}, {}, seq(reconcilers, _ => Free), nodeSets, [], Start(bound))
  }

  // ---------------------------------------------------------------- enabled steps

  predicate NoSuchRow(rows: seq<TaskRow>, taskId: string, index: string) {
    forall r | 0 <= r < |rows| :: rows[r].taskId != taskId || rows[r].index != index
  }

  predicate InCall(s: State, key: Key) {
    exists i | 0 <= i < |s.calls| :: s.calls[i] != Free && s.calls[i].key == key
  }

  predicate EnabledOutside(s: State, step: Step)
    requires step.CreateRow? || step.CreateCR? || step.DeleteCR? || step.EditNodes? || step.Notice?
  {
    match step
    case CreateRow(taskId, index, _) => NoSuchRow(s.rows, taskId, index)
    case CreateCR(row, key, _, _) => row < |s.rows| && key !in s.used && key != ""
    case Notice(key) => key in s.used
    case _ => true
  }

  predicate EnabledCall(c: Config, s: State, step: Step)
    requires step.Take? || step.Load? || step.MarkStart? || step.ReadCluster? || step.PatchCluster?
             || step.CheckNode? || step.SendTask? || step.HandTask?
  {
    && step.call < |s.calls|
    && var call := s.calls[step.call];
       match step
       case Take(_, key) => call.Free? && key in s.pending && !InCall(s, key)
       case Load(_, _) => call.Taken?
       case MarkStart(_, _) => call.Loaded?
       case ReadCluster(_, _) => call.Marked?
       case PatchCluster(_, _) => call.Planned?
       case CheckNode(_, _) => call.Sized?
       case SendTask(_) => call.Sending? && |s.pool.queue| < c.limits.maxTasks
       case HandTask(_, d) =>
         call.Sending? && s.pool.queue == [] && d < |s.pool.dispatchers| && s.pool.dispatchers[d].Idle?
  }

  predicate EnabledPool(c: Config, s: State, step: Step)
    requires step.ReceiveTask? || step.ExitDispatcher? || step.AcquireSlot?
  {
    && step.dispatcher < |s.pool.dispatchers|
    && var d := s.pool.dispatchers[step.dispatcher];
       match step
       case ReceiveTask(_) => d.Idle? && s.pool.queue != []
       case ExitDispatcher(_) => d == Idle(true)
       case AcquireSlot(_) => d.Holding? && s.pool.sem < c.limits.concurrency
  }

  predicate EnabledWorker(c: Config, s: State, step: Step)
    requires step.QueryRow? || step.StartRestore? || step.Poll? || step.Report? || step.FreeSlot?
  {
    && step.worker < |s.pool.workers|
    && var w := s.pool.workers[step.worker];
       match step
       case QueryRow(_, _) => w.stage.Querying? && w.task < |s.sends|
       case StartRestore(_, _, _) => w.stage.Restoring? && w.stage.row < |s.rows|
       case Poll(_, turn) =>
         w.stage.PollingRow? && w.stage.row < |s.rows| && (turn.Tick? ==> |w.turns| < c.limits.maxPolls)
       case Report(_, _) => w.stage.Reporting? && w.task < |s.sends|
       case FreeSlot(_) => w.stage.Reported? && s.pool.sem > 0
  }

  predicate Enabled(c: Config, s: State, step: Step) {
    match step
    case CreateRow(_, _, _) | CreateCR(_, _, _, _) | DeleteCR(_) | EditNodes(_) | Notice(_) => EnabledOutside(s, step)
    case ReceiveTask(_) | ExitDispatcher(_) | AcquireSlot(_) => EnabledPool(c, s, step)
    case QueryRow(_, _) | StartRestore(_, _, _) | Poll(_, _) | Report(_, _) | FreeSlot(_) => EnabledWorker(c, s, step)
    case _ => EnabledCall(c, s, step)
  }

  // ---------------------------------------------------------------- effects

  function NextOutside(s: State, step: Step): State
    requires step.CreateRow? || step.CreateCR? || step.DeleteCR? || step.EditNodes? || step.Notice?
    requires EnabledOutside(s, step)
  {
    match step
    case CreateRow(taskId, index, status) => s.(rows := s.rows + [TaskRow(taskId, index, status)])
    case CreateCR(row, key, node, size) =>
      s.(crs := s.crs[key := CR(s.rows[row].taskId, s.rows[row].index, node, size, false, None)],
         used := s.used + {key})
    case DeleteCR(key) => s.(crs := s.crs - {key})
    case EditNodes(sets) => s.(nodeSets := sets)
    case Notice(key) => s.(noticed := s.noticed + {key}, pending := s.pending + {key})
  }

  /** An error, or a request to come back later, puts the key back into the work queue. */
  function Requeued(s: State, i: nat, key: Key): State
    requires i < |s.calls|
  {
    s.(calls := s.calls[i := Free], pending := s.pending + {key})
  }

  function InPhase(s: State, i: nat, call: Call): State
    requires i < |s.calls|
  {
    s.(calls := s.calls[i := call])
  }

  function Marking(c: Config, s: State, i: nat, ok: bool): State
    requires i < |s.calls| && s.calls[i].Loaded?
  {
    var key, cr := s.calls[i].key, s.calls[i].cr;
    if cr.started then InPhase(s, i, Marked(key, cr))
    else if !ok || key !in s.crs then Requeued(s, i, key)
    else
      var marked := InPhase(s, i, Marked(key, cr));
      if c.code.statusFixed then marked.(crs := s.crs[key := s.crs[key].(started := true)]) else marked
  }

  function Patching(c: Config, s: State, i: nat, ok: bool): State
    requires i < |s.calls| && s.calls[i].Planned?
  {
    var Planned(key, cr, snapshot) := s.calls[i];
    match EnsureNode(snapshot, cr.node, cr.size, c.nodeCount, c.code.resize)
    case Err(_) => Requeued(s, i, key)
    case Ok((after, seen)) =>
      if after == snapshot then InPhase(s, i, Sized(key, cr, seen))
      else if !ok then Requeued(s, i, key)
      else InPhase(s, i, Sized(key, cr, seen)).(nodeSets := after)
  }

  /** The owner test of the code turns away the StatefulSets that Elasticsearch does own. */
  function Checking(c: Config, s: State, i: nat, sts: StatefulSet): State
    requires i < |s.calls| && s.calls[i].Sized?
  {
    var Sized(key, cr, seen) := s.calls[i];
    if sts.Missing? || sts.owned != c.code.ownerFixed || !sts.ready then Requeued(s, i, key)
    else InPhase(s, i, Sending(key, cr, seen))
  }

  /** The send is over: the call returns and its key is dropped. */
  function SentOff(s: State, i: nat, pool: Pool): State
    requires i < |s.calls| && s.calls[i].Sending?
  {
    InPhase(s, i, Free).(sends := s.sends + [SendRecord(s.calls[i].key, s.calls[i].cr, s.calls[i].seen)], pool := pool)
  }

  function NextCall(c: Config, s: State, step: Step): State
    requires step.Take? || step.Load? || step.MarkStart? || step.ReadCluster? || step.PatchCluster?
             || step.CheckNode? || step.SendTask? || step.HandTask?
    requires EnabledCall(c, s, step)
  {
    match step
    case Take(i, key) => InPhase(s, i, Taken(key)).(pending := s.pending - {key})
    case Load(i, ok) =>
      var key := s.calls[i].key;
      if !ok then Requeued(s, i, key) else InPhase(s, i, if key in s.crs then Loaded(key, s.crs[key]) else Free)
    case MarkStart(i, ok) => Marking(c, s, i, ok)
    case ReadCluster(i, ok) =>
      if ok then InPhase(s, i, Planned(s.calls[i].key, s.calls[i].cr, s.nodeSets)) else Requeued(s, i, s.calls[i].key)
    case PatchCluster(i, ok) => Patching(c, s, i, ok)
    case CheckNode(i, sts) => Checking(c, s, i, sts)
    case SendTask(i) => SentOff(s, i, Send(s.pool))
    case HandTask(i, d) => SentOff(s, i, Handoff(s.pool, d))
  }

  function NextPool(c: Config, s: State, step: Step): State
    requires step.ReceiveTask? || step.ExitDispatcher? || step.AcquireSlot?
    requires EnabledPool(c, s, step)
  {
    match step
    case ReceiveTask(d) => s.(pool := Receive(s.pool, d))
    case ExitDispatcher(d) => s.(pool := Exit(s.pool, d))
    case AcquireSlot(d) => s.(pool := Acquire(s.pool, d))
  }

  function AtStage(s: State, w: nat, stage: Stage, turns: seq<Turn>): State
    requires w < |s.pool.workers|
  {
    s.(pool := Advance(s.pool, w, stage, turns))
  }

  function AfterQuery(s: State, w: nat, ok: bool): State
    requires w < |s.pool.workers| && s.pool.workers[w].task < |s.sends|
  {
    var cr := s.sends[s.pool.workers[w].task].cr;
    var found := Lookup(s.rows, cr.taskId, cr.index);
    AtStage(s, w, if !ok then Reporting(false) else if |found| != 1 then Reporting(true) else Restoring(found[0]), [])
  }

  function AfterRestore(s: State, w: nat, ok: bool, stored: bool): State
    requires w < |s.pool.workers| && s.pool.workers[w].stage.Restoring? && s.pool.workers[w].stage.row < |s.rows|
  {
    var r := s.pool.workers[w].stage.row;
    if ok then AtStage(s, w, PollingRow(r), [])
    else
      var failed := AtStage(s, w, Reporting(false), []);
      if stored then failed.(rows := WithStatus(s.rows, r, FAILED)) else failed
  }

  function AfterPoll(s: State, w: nat, turn: Turn): State
    requires w < |s.pool.workers| && s.pool.workers[w].stage.PollingRow? && s.pool.workers[w].stage.row < |s.rows|
  {
    var r, turns := s.pool.workers[w].stage.row, s.pool.workers[w].turns + [turn];
    match turn
    case Tick(recovery, stored) =>
      if Complete(recovery) && stored then
        AtStage(s, w, Reporting(true), turns).(rows := WithStatus(s.rows, r, SUCCESS))
      else AtStage(s, w, PollingRow(r), turns)
    case Expired(stored) =>
      var late := AtStage(s, w, Reporting(false), turns);
      if stored then late.(rows := WithStatus(s.rows, r, TIMEOUT)) else late
  }

  /** updateTaskStatus: as written the queued task has no name, so the resource is never found. */
  function AfterReport(c: Config, s: State, w: nat, ok: bool): State
    requires w < |s.pool.workers| && s.pool.workers[w].stage.Reporting? && s.pool.workers[w].task < |s.sends|
  {
    var done := s.pool.workers[w].stage.done;
    var key := if c.code.keyFixed then s.sends[s.pool.workers[w].task].key else "";
    var reported := AtStage(s, w, Reported(done), s.pool.workers[w].turns);
    if key in s.crs && ok && c.code.statusFixed then
      reported.(crs := s.crs[key := s.crs[key].(status := Some(done))])
    else reported
  }

  function NextWorker(c: Config, s: State, step: Step): State
    requires step.QueryRow? || step.StartRestore? || step.Poll? || step.Report? || step.FreeSlot?
    requires EnabledWorker(c, s, step)
  {
    match step
    case QueryRow(w, ok) => AfterQuery(s, w, ok)
    case StartRestore(w, ok, stored) => AfterRestore(s, w, ok, stored)
    case Poll(w, turn) => AfterPoll(s, w, turn)
    case Report(w, ok) => AfterReport(c, s, w, ok)
    case FreeSlot(w) => s.(pool := Release(s.pool, w))
  }

  function Next(c: Config, s: State, step: Step): State
    requires Enabled(c, s, step)
  {
    hide EnabledOutside, EnabledCall, EnabledPool, EnabledWorker;
    match step
    case CreateRow(_, _, _) | CreateCR(_, _, _, _) | DeleteCR(_) | EditNodes(_) | Notice(_) => NextOutside(s, step)
    case ReceiveTask(_) | ExitDispatcher(_) | AcquireSlot(_) => NextPool(c, s, step)
    case QueryRow(_, _) | StartRestore(_, _, _) | Poll(_, _) | Report(_, _) | FreeSlot(_) => NextWorker(c, s, step)
    case _ => NextCall(c, s, step)
  }

  // ---------------------------------------------------------------- runs

  /** The state after taking the steps one after the other, if each is enabled in its turn. */
  function Run(c: Config, s: State, steps: seq<Step>): Option<State> {
    if steps == [] then Some(s)
    else
      match Run(c, s, steps[..|steps| - 1])
      case None => None
      case Some(t) =>
        var last := steps[|steps| - 1];
        if Enabled(c, t, last) then Some(Next(c, t, last)) else None
  }
}
