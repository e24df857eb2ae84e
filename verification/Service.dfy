/**
 * The request handler, the body of Reconcile and the status write as the code runs them, and the
 * steps of the pipeline that each of them amounts to when nothing interrupts it.
 */
module Service {
  import opened Wrappers
  import opened Folds
  import opened NodeSets
  import opened Polling
  import opened TaskPool
  import opened Pipeline

  // ---------------------------------------------------------------- requests

  datatype Request = Request(taskId: string, index: string, size: string)

  /** Whether the row and the resource of a request could be written, and the random name suffix. */
  datatype Answer = Answer(rowStored: bool, created: bool, suffix: string)

  /** What requests write to. */
  datatype Store = Store(rows: seq<TaskRow>, crs: map<Key, CR>)

  function KeyFor(nodeName: string, a: Answer): Key {
    nodeName + "-" + a.suffix
  }

  /** The API server refuses a name that is taken. */
  predicate Creates(store: Store, nodeName: string, a: Answer) {
    a.created && KeyFor(nodeName, a) !in store.crs
  }

  function AfterOne(store: Store, nodeName: string, r: Request, a: Answer): Store {
    if !a.rowStored then store
    else
      var rows := store.rows + [TaskRow(r.taskId, r.index, "")];
      if Creates(store, nodeName, a) then
        Store(rows, store.crs[KeyFor(nodeName, a) := CR(r.taskId, r.index, nodeName, r.size, false, None)])
      else store.(rows := rows)
  }

  function AfterAll(store: Store, nodeName: string, rs: seq<Request>, answers: seq<Answer>): Store
    requires |answers| == |rs|
  {
    if rs == [] then store
    else
      var n := |rs| - 1;
      AfterOne(AfterAll(store, nodeName, rs[..n], answers[..n]), nodeName, rs[n], answers[n])
  }

  /** The resource of request i could be created, after those before it. */
  predicate Published(store: Store, nodeName: string, rs: seq<Request>, answers: seq<Answer>, i: nat)
    requires |answers| == |rs| && i < |rs|
  {
    && answers[i].rowStored
    && Creates(AfterAll(store, nodeName, rs[..i], answers[..i]), nodeName, answers[i])
  }

  /** Positions of the requests the reply calls successful, in order: those whose row was stored. */
  function SucceededAt(answers: seq<Answer>): (at: seq<nat>)
    ensures forall i | 0 <= i < |at| :: at[i] < |answers|
  {
    if answers == [] then []
    else
      var n := |answers| - 1;
      SucceededAt(answers[..n]) + if answers[n].rowStored then [n] else []
  }

  /** Positions of those it calls failed: no row, or no resource. */
  function FailedAt(store: Store, nodeName: string, rs: seq<Request>, answers: seq<Answer>): (at: seq<nat>)
    requires |answers| == |rs|
    ensures forall i | 0 <= i < |at| :: at[i] < |rs|
  {
    if rs == [] then []
    else
      var n := |rs| - 1;
      FailedAt(store, nodeName, rs[..n], answers[..n]) + if Published(store, nodeName, rs, answers, n) then [] else [n]
  }

  function IdsAt(rs: seq<Request>, at: seq<nat>): (ids: seq<string>)
    requires forall i | 0 <= i < |at| :: at[i] < |rs|
    ensures AreIds(rs, at, ids)
  {
    seq(|at|, i requires 0 <= i < |at| => rs[at[i]].taskId)
  }

  predicate AreIds(rs: seq<Request>, at: seq<nat>, ids: seq<string>) {
    |ids| == |at| && forall i | 0 <= i < |at| :: at[i] < |rs| && ids[i] == rs[at[i]].taskId
  }

  class Cluster {
    var rows: seq<TaskRow>
    var crs: map<Key, CR>
    const es: Elasticsearch

    constructor (es: Elasticsearch)
      ensures this.es == es && rows == [] && crs == map[]
    {
      this.es := es;
      rows, crs := [], map[];
    }

    /** The row of one task and then its resource; made tells whether that could be created. */
    method RestoreOne(nodeName: string, r: Request, a: Answer) returns (made: bool)
      modifies this
      ensures Store(rows, crs) == AfterOne(Store(old(rows), old(crs)), nodeName, r, a)
      ensures made == (a.rowStored && Creates(Store(old(rows), old(crs)), nodeName, a))
    {
      if !a.rowStored {
        return false;
      }
      rows := rows + [TaskRow(r.taskId, r.index, "")];
      var key := KeyFor(nodeName, a);
      made := a.created && key !in crs;
      if made {
        crs := crs[key := CR(r.taskId, r.index, nodeName, r.size, false, None)];
      }
    }

    method RestoreViaCR(nodeName: string, rs: seq<Request>, answers: seq<Answer>)
      returns (success: seq<string>, failed: seq<string>)
      requires |answers| == |rs|
      modifies this
      ensures Store(rows, crs) == AfterAll(Store(old(rows), old(crs)), nodeName, rs, answers)
      ensures success == IdsAt(rs, SucceededAt(answers))
      ensures failed == IdsAt(rs, FailedAt(Store(old(rows), old(crs)), nodeName, rs, answers))
    {
      hide AfterAll, SucceededAt, FailedAt, IdsAt, AfterOne, Creates, AreIds, Published;
      success, failed := [], [];
      ghost var before := Store(rows, crs);
      ghost var stored: seq<nat>, missed: seq<nat> := [], [];
      NoReplyYet(before, nodeName, rs, answers);
      for i := 0 to |rs|
        invariant Store(rows, crs) == AfterAll(before, nodeName, rs[..i], answers[..i])
        invariant stored == SucceededAt(answers[..i]) && missed == FailedAt(before, nodeName, rs[..i], answers[..i])
        invariant AreIds(rs, stored, success) && AreIds(rs, missed, failed)
      {
        OneMoreReply(before, nodeName, rs, answers, i);
        OneMoreId(rs, stored, success, i);
        OneMoreId(rs, missed, failed, i);
        var made := RestoreOne(nodeName, rs[i], answers[i]);
        if !answers[i].rowStored {
          failed, missed := failed + [rs[i].taskId], missed + [i];
          continue;
        }
        if !made {
          failed, missed := failed + [rs[i].taskId], missed + [i];
        }
        success, stored := success + [rs[i].taskId], stored + [i];
      }
      assert rs[..|rs|] == rs && answers[..|rs|] == answers;
      TheIds(rs, stored, success);
      TheIds(rs, missed, failed);
    }

    /** One uninterrupted Reconcile, up to the send it may come to. */
    method Reconcile(c: Config, key: Key, env: Env) returns (verdict: Verdict)
      modifies this, es
      ensures rows == old(rows)
      ensures (crs, es.nodeSets, verdict) == Reconciled(c, old(crs), old(es.nodeSets), key, env)
    {
      if !env.loadOk {
        return Again;
      }
      if key !in crs {
        return Dropped;
      }
      var cr := crs[key];
      if !cr.started {
        if !env.startOk {
          return Again;
        }
        if c.code.statusFixed {
          crs := crs[key := crs[key].(started := true)];
        }
      }
      if !env.readOk {
        return Again;
      }
      var seen, patched := ReconcileNode(es, cr.node, cr.size, c.nodeCount, c.code.resize, env.patchOk);
      if seen.Err? {
        return Again;
      }
      if env.sts.Missing? {
        return Again;
      }
      if env.sts.owned != c.code.ownerFixed {
        return Again;
      }
      if !env.sts.ready {
        return Again;
      }
      return Queue(cr, seen.value);
    }

    /** updateTaskStatus for the resource a queued task names. */
    method UpdateTaskStatus(c: Config, key: Key, done: bool, readOk: bool, ok: bool)
      modifies this
      ensures rows == old(rows) && crs.Keys == old(crs).Keys
      ensures crs == StatusWritten(c, old(crs), key, done, readOk && ok)
    {
      var named := if c.code.keyFixed then key else "";
      if !readOk || named !in crs {
        return;
      }
      if ok && c.code.statusFixed {
        crs := crs[named := crs[named].(status := Some(done))];
      }
    }
  }

  /** The resources after a status write: only the one with the name the queued task carries changes,
      and nothing but its status. */
  function StatusWritten(c: Config, crs: map<Key, CR>, key: Key, done: bool, ok: bool): map<Key, CR> {
    map k | k in crs ::
      if ok && c.code.statusFixed && k == (if c.code.keyFixed then key else "")
      then crs[k].(status := Some(done)) else crs[k]
  }

  /** The status write is the Report step of the pipeline, on the resources. */
  lemma UpdateIsReport(c: Config, s: State, w: nat, ok: bool)
    requires Enabled(c, s, Report(w, ok))
    ensures Next(c, s, Report(w, ok)).crs
         == StatusWritten(c, s.crs, s.sends[s.pool.workers[w].task].key, s.pool.workers[w].stage.done, ok)
  {
  }

  /**
   * When it writes anything: as no resource has an empty name, exactly when both faults are repaired,
   * the request goes through, and the resource is there with another status.
   */
  lemma StatusIsWrittenExactly(c: Config, crs: map<Key, CR>, key: Key, done: bool, ok: bool)
    requires "" !in crs
    ensures StatusWritten(c, crs, key, done, ok) != crs
            <==> c.code.keyFixed && c.code.statusFixed && ok && key in crs && crs[key].status != Some(done)
    ensures forall k | k in crs && k != key :: StatusWritten(c, crs, key, done, ok)[k] == crs[k]
  {
    var after := StatusWritten(c, crs, key, done, ok);
    if c.code.keyFixed && c.code.statusFixed && ok && key in crs {
      assert after[key].status == Some(done);
      if crs[key].status == Some(done) {
        assert crs[key].(status := Some(done)) == crs[key];
        assert after == crs;
      }
    } else {
      assert after == crs;
    }
  }

  // ---------------------------------------------------------------- what the reply says

  lemma NoReplyYet(store: Store, nodeName: string, rs: seq<Request>, answers: seq<Answer>)
    requires |answers| == |rs|
    ensures AfterAll(store, nodeName, rs[..0], answers[..0]) == store
    ensures SucceededAt(answers[..0]) == [] && FailedAt(store, nodeName, rs[..0], answers[..0]) == []
    ensures AreIds(rs, [], [])
  {
  }

  lemma OneMoreId(rs: seq<Request>, at: seq<nat>, ids: seq<string>, i: nat)
    requires AreIds(rs, at, ids) && i < |rs|
    ensures AreIds(rs, at + [i], ids + [rs[i].taskId])
  {
  }

  lemma TheIds(rs: seq<Request>, at: seq<nat>, ids: seq<string>)
    requires AreIds(rs, at, ids)
    ensures (forall i | 0 <= i < |at| :: at[i] < |rs|) && ids == IdsAt(rs, at)
  {
  }

  lemma OneMoreReply(store: Store, nodeName: string, rs: seq<Request>, answers: seq<Answer>, i: nat)
    requires |answers| == |rs| && i < |rs|
    ensures SucceededAt(answers[..i + 1]) == SucceededAt(answers[..i]) + if answers[i].rowStored then [i] else []
    ensures FailedAt(store, nodeName, rs[..i + 1], answers[..i + 1])
         == FailedAt(store, nodeName, rs[..i], answers[..i])
            + if answers[i].rowStored && Creates(AfterAll(store, nodeName, rs[..i], answers[..i]), nodeName, answers[i])
              then [] else [i]
    ensures AfterAll(store, nodeName, rs[..i + 1], answers[..i + 1])
         == AfterOne(AfterAll(store, nodeName, rs[..i], answers[..i]), nodeName, rs[i], answers[i])
  {
    assert rs[..i + 1][..i] == rs[..i] && answers[..i + 1][..i] == answers[..i];
    hide AfterOne, Creates;
  }

  lemma {:induction false} SucceededAtIs(answers: seq<Answer>, i: nat)
    ensures i in SucceededAt(answers) <==> i < |answers| && answers[i].rowStored
    ensures Ascending(SucceededAt(answers))
  {
    if answers == [] {
    } else {
      SucceededAtIs(answers[..|answers| - 1], i);
    }
  }

  lemma {:induction false} FailedAtIs(store: Store, nodeName: string, rs: seq<Request>, answers: seq<Answer>, i: nat)
    requires |answers| == |rs|
    ensures i in FailedAt(store, nodeName, rs, answers) <==> i < |rs| && !Published(store, nodeName, rs, answers, i)
    ensures Ascending(FailedAt(store, nodeName, rs, answers))
  {
    hide Creates;
    if rs == [] {
    } else {
      var n := |rs| - 1;
      FailedAtIs(store, nodeName, rs[..n], answers[..n], i);
      if i < n {
        assert rs[..n][..i] == rs[..i] && answers[..n][..i] == answers[..i];
      }
    }
  }

  /** The row and the resource a request asks for are in the store. */
  predicate Stored(store: Store, nodeName: string, r: Request, a: Answer) {
    && HasRequestRow(store.rows, r)
    && var key := nodeName + "-" + a.suffix;
       key in store.crs && store.crs[key] == CR(r.taskId, r.index, nodeName, r.size, false, None)
  }

  predicate HasRequestRow(rows: seq<TaskRow>, r: Request) {
    TaskRow(r.taskId, r.index, "") in rows
  }

  /** Later requests leave rows and resources where they are. */
  lemma {:induction false} RequestsKeep(store: Store, nodeName: string, rs: seq<Request>, answers: seq<Answer>, i: nat)
    requires |answers| == |rs| && i <= |rs|
    ensures var before, end := AfterAll(store, nodeName, rs[..i], answers[..i]), AfterAll(store, nodeName, rs, answers);
            && before.rows <= end.rows
            && forall k | k in before.crs :: k in end.crs && end.crs[k] == before.crs[k]
  {
    if i == |rs| {
      assert rs[..i] == rs && answers[..i] == answers;
    } else {
      var n := |rs| - 1;
      assert rs[..n][..i] == rs[..i] && answers[..n][..i] == answers[..i];
      RequestsKeep(store, nodeName, rs[..n], answers[..n], i);
    }
  }

  /**
   * The reply, by position. A request is listed as successful and as failed exactly when its row was
   * stored and its resource was not created; listed as successful alone its row and its resource are
   * in the store afterwards, as asked for.
   */
  lemma ReplyByPosition(store: Store, nodeName: string, rs: seq<Request>, answers: seq<Answer>, i: nat)
    requires |answers| == |rs| && i < |rs|
    ensures Ascending(SucceededAt(answers)) && Ascending(FailedAt(store, nodeName, rs, answers))
    ensures i in SucceededAt(answers) && i in FailedAt(store, nodeName, rs, answers)
            <==> answers[i].rowStored && !Published(store, nodeName, rs, answers, i)
    ensures i !in SucceededAt(answers) ==> i in FailedAt(store, nodeName, rs, answers)
    ensures i in SucceededAt(answers) ==> HasRequestRow(AfterAll(store, nodeName, rs, answers).rows, rs[i])
    ensures i !in FailedAt(store, nodeName, rs, answers) ==>
              Stored(AfterAll(store, nodeName, rs, answers), nodeName, rs[i], answers[i])
  {
    SucceededAtIs(answers, i);
    FailedAtIs(store, nodeName, rs, answers, i);
    var before := AfterAll(store, nodeName, rs[..i], answers[..i]);
    var after := AfterAll(store, nodeName, rs[..i + 1], answers[..i + 1]);
    OneMoreReply(store, nodeName, rs, answers, i);
    assert after == AfterOne(before, nodeName, rs[i], answers[i]);
    RequestsKeep(store, nodeName, rs, answers, i + 1);
    var end := AfterAll(store, nodeName, rs, answers);
    hide AfterAll, KeyFor;
    if answers[i].rowStored {
      assert after.rows[|before.rows|] == TaskRow(rs[i].taskId, rs[i].index, "");
      assert end.rows[|before.rows|] == after.rows[|before.rows|];
    }
  }

  /** Of fresh requests, being listed as successful alone says exactly that, and that both were accepted. */
  lemma ReplyOnFreshRequests(s: State, nodeName: string, rs: seq<Request>, answers: seq<Answer>, i: nat)
    requires |answers| == |rs| && i < |rs| && s.crs.Keys <= s.used && AllFresh(s, nodeName, rs, answers)
    ensures var store := Store(s.rows, s.crs);
            i in SucceededAt(answers) && i !in FailedAt(store, nodeName, rs, answers)
            <==> Stored(AfterAll(store, nodeName, rs, answers), nodeName, rs[i], answers[i])
    ensures var store := Store(s.rows, s.crs);
            i in SucceededAt(answers) && i !in FailedAt(store, nodeName, rs, answers)
            <==> answers[i].rowStored && answers[i].created
  {
    var store := Store(s.rows, s.crs);
    ReplyByPosition(store, nodeName, rs, answers, i);
    SucceededAtIs(answers, i);
    FailedAtIs(store, nodeName, rs, answers, i);
    OthersKeys(store, nodeName, rs[..i], answers[..i], KeyFor(nodeName, answers[i]));
    if i in FailedAt(store, nodeName, rs, answers) {
      NotStored(store, nodeName, rs, answers, i);
    }
    hide AfterAll, Stored;
  }

  lemma {:induction false} NotStored(store: Store, nodeName: string, rs: seq<Request>, answers: seq<Answer>, i: nat)
    requires |answers| == |rs| && i < |rs| && !Published(store, nodeName, rs, answers, i)
    requires KeyFor(nodeName, answers[i]) !in store.crs
    requires forall j | 0 <= j < |rs| && j != i :: KeyFor(nodeName, answers[j]) != KeyFor(nodeName, answers[i])
    ensures KeyFor(nodeName, answers[i]) !in AfterAll(store, nodeName, rs, answers).crs
  {
    var n := |rs| - 1;
    hide KeyFor;
    if i == n {
      OthersKeys(store, nodeName, rs[..n], answers[..n], KeyFor(nodeName, answers[i]));
    } else {
      assert rs[..n][..i] == rs[..i] && answers[..n][..i] == answers[..i];
      NotStored(store, nodeName, rs[..n], answers[..n], i);
    }
  }

  lemma {:induction false} OthersKeys(store: Store, nodeName: string, rs: seq<Request>, answers: seq<Answer>, key: Key)
    requires |answers| == |rs| && key !in store.crs
    requires forall j | 0 <= j < |rs| :: KeyFor(nodeName, answers[j]) != key
    ensures key !in AfterAll(store, nodeName, rs, answers).crs
  {
    hide KeyFor;
    if rs == [] {
    } else {
      OthersKeys(store, nodeName, rs[..|rs| - 1], answers[..|rs| - 1], key);
    }
  }

  /** One task, stored and not created: the reply lists it twice. */
  lemma ListedTwice(store: Store, nodeName: string, r: Request, suffix: string)
    ensures IdsAt([r], SucceededAt([Answer(true, false, suffix)])) == [r.taskId]
    ensures IdsAt([r], FailedAt(store, nodeName, [r], [Answer(true, false, suffix)])) == [r.taskId]
  {
    var rs, answers := [r], [Answer(true, false, suffix)];
    assert rs[..0] == [] && answers[..0] == [];
    OneMoreReply(store, nodeName, rs, answers, 0);
    assert rs[..1] == rs && answers[..1] == answers;
  }

  /** The request loop in pipeline steps: a row, and then its resource. */
  function StepsFor(store: Store, nodeName: string, rs: seq<Request>, answers: seq<Answer>): seq<Step>
    requires |answers| == |rs|
  {
    if rs == [] then []
    else
      var n := |rs| - 1;
      var before := AfterAll(store, nodeName, rs[..n], answers[..n]);
      StepsFor(store, nodeName, rs[..n], answers[..n])
      + (if !answers[n].rowStored then []
         else [CreateRow(rs[n].taskId, rs[n].index, "")]
              + if Creates(before, nodeName, answers[n])
                then [CreateCR(|before.rows|, KeyFor(nodeName, answers[n]), nodeName, rs[n].size)] else [])
  }

  function KeysFor(nodeName: string, answers: seq<Answer>): set<Key> {
    set i | 0 <= i < |answers| :: KeyFor(nodeName, answers[i])
  }

  /** Requested pairs are new and differ from each other, and so do the random names. */
  predicate AllFresh(s: State, nodeName: string, rs: seq<Request>, answers: seq<Answer>)
    requires |answers| == |rs|
  {
    && (forall i | 0 <= i < |rs| ::
          NoSuchRow(s.rows, rs[i].taskId, rs[i].index) && KeyFor(nodeName, answers[i]) !in s.used)
    && (forall i, j | 0 <= i < j < |rs| :: rs[i].taskId != rs[j].taskId || rs[i].index != rs[j].index)
    && (forall i, j | 0 <= i < j < |rs| :: KeyFor(nodeName, answers[i]) != KeyFor(nodeName, answers[j]))
  }

  lemma RunAppend(c: Config, s: State, steps: seq<Step>, step: Step)
    requires Run(c, s, steps).Some? && Enabled(c, Run(c, s, steps).value, step)
    ensures Run(c, s, steps + [step]) == Some(Next(c, Run(c, s, steps).value, step))
  {
    hide Enabled, Next;
    assert (steps + [step])[..|steps|] == steps;
  }

  lemma {:induction false} OtherPairsStayFresh(store: Store, nodeName: string, rs: seq<Request>, answers: seq<Answer>,
                                               taskId: string, index: string)
    requires |answers| == |rs| && NoSuchRow(store.rows, taskId, index)
    requires forall i | 0 <= i < |rs| :: rs[i].taskId != taskId || rs[i].index != index
    ensures NoSuchRow(AfterAll(store, nodeName, rs, answers).rows, taskId, index)
  {
    if rs == [] {
    } else {
      var n := |rs| - 1;
      OtherPairsStayFresh(store, nodeName, rs[..n], answers[..n], taskId, index);
      var before := AfterAll(store, nodeName, rs[..n], answers[..n]);
      OneRowMore(before.rows, rs[n], taskId, index);
    }
  }

  lemma OneRowMore(rows: seq<TaskRow>, r: Request, taskId: string, index: string)
    requires NoSuchRow(rows, taskId, index) && (r.taskId != taskId || r.index != index)
    ensures NoSuchRow(rows + [TaskRow(r.taskId, r.index, "")], taskId, index)
  {
  }

  /** The names used after the requests: the old ones and the new resources. */
  function UsedAfter(used: set<Key>, store: Store, nodeName: string, rs: seq<Request>, answers: seq<Answer>): set<Key>
    requires |answers| == |rs|
  {
    used + AfterAll(store, nodeName, rs, answers).crs.Keys
  }

  lemma {:induction false} NewKeysAreRequested(store: Store, nodeName: string, rs: seq<Request>, answers: seq<Answer>)
    requires |answers| == |rs|
    ensures AfterAll(store, nodeName, rs, answers).crs.Keys <= store.crs.Keys + KeysFor(nodeName, answers)
  {
    if rs == [] {
    } else {
      var n := |rs| - 1;
      NewKeysAreRequested(store, nodeName, rs[..n], answers[..n]);
      forall k | k in KeysFor(nodeName, answers[..n])
        ensures k in KeysFor(nodeName, answers)
      {
        var i :| 0 <= i < n && k == KeyFor(nodeName, answers[..n][i]);
        assert k == KeyFor(nodeName, answers[i]);
      }
      assert KeyFor(nodeName, answers[n]) in KeysFor(nodeName, answers);
    }
  }

  /** The last request of fresh ones still finds its pair and its name unused. */
  lemma LastStaysFresh(s: State, nodeName: string, rs: seq<Request>, answers: seq<Answer>)
    requires |answers| == |rs| && rs != [] && s.crs.Keys <= s.used && AllFresh(s, nodeName, rs, answers)
    ensures var n, store := |rs| - 1, Store(s.rows, s.crs);
            var before := AfterAll(store, nodeName, rs[..n], answers[..n]);
            && AllFresh(s, nodeName, rs[..n], answers[..n])
            && NoSuchRow(before.rows, rs[n].taskId, rs[n].index)
            && KeyFor(nodeName, answers[n]) !in UsedAfter(s.used, store, nodeName, rs[..n], answers[..n])
  {
    var n, store := |rs| - 1, Store(s.rows, s.crs);
    OtherPairsStayFresh(store, nodeName, rs[..n], answers[..n], rs[n].taskId, rs[n].index);
    NewKeysAreRequested(store, nodeName, rs[..n], answers[..n]);
    hide AfterAll, KeyFor;
  }

  lemma RunTwo(c: Config, s: State, steps: seq<Step>, a: Step, b: Step)
    requires Run(c, s, steps).Some? && Enabled(c, Run(c, s, steps).value, a)
    requires Enabled(c, Next(c, Run(c, s, steps).value, a), b)
    ensures Run(c, s, steps + ([a] + [b])) == Some(Next(c, Next(c, Run(c, s, steps).value, a), b))
  {
    RunAppend(c, s, steps, a);
    RunAppend(c, s, steps + [a], b);
    assert steps + ([a] + [b]) == steps + [a] + [b];
    hide Enabled, Next, Run;
  }

  /** Fresh requests are a run of the pipeline, which leaves everything but the store alone. */
  lemma {:induction false} RequestsAreSteps(c: Config, s: State, nodeName: string, rs: seq<Request>,
                                            answers: seq<Answer>)
    requires |answers| == |rs| && s.crs.Keys <= s.used && AllFresh(s, nodeName, rs, answers)
    ensures var store := Store(s.rows, s.crs);
            var end := AfterAll(store, nodeName, rs, answers);
            Run(c, s, StepsFor(store, nodeName, rs, answers))
            == Some(s.(rows := end.rows, crs := end.crs, used := UsedAfter(s.used, store, nodeName, rs, answers)))
  {
    var store := Store(s.rows, s.crs);
    if rs == [] {
      assert UsedAfter(s.used, store, nodeName, rs, answers) == s.used;
    } else {
      var n := |rs| - 1;
      LastStaysFresh(s, nodeName, rs, answers);
      RequestsAreSteps(c, s, nodeName, rs[..n], answers[..n]);
      OneRequest(c, s, nodeName, rs, answers);
    }
  }

  lemma OneRequest(c: Config, s: State, nodeName: string, rs: seq<Request>, answers: seq<Answer>)
    requires |answers| == |rs| && rs != []
    requires var n, store := |rs| - 1, Store(s.rows, s.crs);
             var before := AfterAll(store, nodeName, rs[..n], answers[..n]);
             var used := UsedAfter(s.used, store, nodeName, rs[..n], answers[..n]);
             && NoSuchRow(before.rows, rs[n].taskId, rs[n].index)
             && KeyFor(nodeName, answers[n]) !in used
             && Run(c, s, StepsFor(store, nodeName, rs[..n], answers[..n]))
                == Some(s.(rows := before.rows, crs := before.crs, used := used))
    ensures var store := Store(s.rows, s.crs);
            var end := AfterAll(store, nodeName, rs, answers);
            Run(c, s, StepsFor(store, nodeName, rs, answers))
            == Some(s.(rows := end.rows, crs := end.crs, used := UsedAfter(s.used, store, nodeName, rs, answers)))
  {
    var n, store := |rs| - 1, Store(s.rows, s.crs);
    var before := AfterAll(store, nodeName, rs[..n], answers[..n]);
    var steps, key := StepsFor(store, nodeName, rs[..n], answers[..n]), KeyFor(nodeName, answers[n]);
    var t := Run(c, s, steps).value;
    var create := CreateRow(rs[n].taskId, rs[n].index, "");
    var publish := CreateCR(|before.rows|, key, nodeName, rs[n].size);
    if !answers[n].rowStored {
      assert steps + [] == steps;
    } else if Creates(before, nodeName, answers[n]) {
      assert |key| >= 1;
      RunTwo(c, s, steps, create, publish);
      assert s.used + before.crs.Keys + {key}
             == s.used + before.crs[key := CR(rs[n].taskId, rs[n].index, nodeName, rs[n].size, false, None)].Keys;
    } else {
      RunAppend(c, s, steps, create);
      assert steps + ([create] + []) == steps + [create];
    }
    hide Run;
  }

  // ---------------------------------------------------------------- one Reconcile

  datatype Env = Env(loadOk: bool, startOk: bool, readOk: bool, patchOk: bool, sts: StatefulSet)

  /** The key is dropped, comes back, or its task goes to the queue. */
  datatype Verdict = Dropped | Again | Queue(cr: CR, seen: nat)

  function Reconciled(c: Config, crs: map<Key, CR>, nodeSets: seq<NodeSet>, key: Key, env: Env)
    : (map<Key, CR>, seq<NodeSet>, Verdict)
  {
    if !env.loadOk then (crs, nodeSets, Again)
    else if key !in crs then (crs, nodeSets, Dropped)
    else
      var cr := crs[key];
      if !cr.started && !env.startOk then (crs, nodeSets, Again)
      else
        var marked := if !cr.started && c.code.statusFixed then crs[key := cr.(started := true)] else crs;
        if !env.readOk then (marked, nodeSets, Again)
        else
          match EnsureNode(nodeSets, cr.node, cr.size, c.nodeCount, c.code.resize)
          case Err(_) => (marked, nodeSets, Again)
          case Ok((after, seen)) =>
            if after != nodeSets && !env.patchOk then (marked, nodeSets, Again)
            else if env.sts.Missing? || env.sts.owned != c.code.ownerFixed || !env.sts.ready then (marked, after, Again)
            else (marked, after, Queue(cr, seen))
  }

  /**
   * What a Reconcile does, by what it may meet: its task goes to the queue exactly when nothing fails on
   * the way and the StatefulSet is the one the code lets pass; its key is dropped exactly when the
   * resource is found to be gone; it marks its own resource as started, and no other; and the node sets
   * become those of the node step exactly when that was reached and its patch, if any, accepted.
   */
  lemma ReconciledExactly(c: Config, crs: map<Key, CR>, nodeSets: seq<NodeSet>, key: Key, env: Env)
    ensures var (after, sets, verdict) := Reconciled(c, crs, nodeSets, key, env);
            var found := env.loadOk && key in crs;
            var marked := found && (crs[key].started || env.startOk);
            && (verdict.Dropped? <==> env.loadOk && key !in crs)
            && after == (if marked && c.code.statusFixed then crs[key := crs[key].(started := true)] else crs)
            && if !marked || !env.readOk then
                 sets == nodeSets && verdict == if env.loadOk && !found then Dropped else Again
               else
                 var step := EnsureNode(nodeSets, crs[key].node, crs[key].size, c.nodeCount, c.code.resize);
                 var sized := step.Ok? && (step.value.0 == nodeSets || env.patchOk);
                 && sets == (if sized then step.value.0 else nodeSets)
                 && (verdict.Queue? <==> sized && env.sts == Found(c.code.ownerFixed, true))
                 && (verdict.Queue? ==> verdict == Queue(crs[key], step.value.1))
  {
    hide EnsureNode;
    if key in crs && crs[key].started {
      assert crs[key := crs[key].(started := true)] == crs;
    }
  }

  /** The pipeline steps of call i on a key, until it is dropped, requeued or about to send. */
  function CallSteps(c: Config, s: State, i: nat, key: Key, env: Env): seq<Step> {
    if !env.loadOk || key !in s.crs then [Take(i, key), Load(i, env.loadOk)]
    else if !s.crs[key].started && !env.startOk then [Take(i, key), Load(i, true), MarkStart(i, false)]
    else if !env.readOk then [Take(i, key), Load(i, true), MarkStart(i, env.startOk), ReadCluster(i, false)]
    else
      var cr := s.crs[key];
      var toPatch := [Take(i, key), Load(i, true), MarkStart(i, env.startOk), ReadCluster(i, true),
          PatchCluster(i, env.patchOk)];
      match EnsureNode(s.nodeSets, cr.node, cr.size, c.nodeCount, c.code.resize)
      case Err(_) => toPatch
      case Ok((after, _)) =>
        if after != s.nodeSets && !env.patchOk then toPatch else toPatch + [CheckNode(i, env.sts)]
  }

  /** What the uninterrupted call leaves behind. */
  function AfterCall(c: Config, s: State, i: nat, key: Key, env: Env): State
    requires i < |s.calls|
  {
    var (crs, nodeSets, verdict) := Reconciled(c, s.crs, s.nodeSets, key, env);
    var call := match verdict case Queue(cr, seen) => Sending(key, cr, seen) case _ => Free;
    s.(crs := crs, nodeSets := nodeSets, calls := s.calls[i := call],
       pending := if verdict.Again? then s.pending else s.pending - {key})
  }

  lemma UpdateTwice<T>(xs: seq<T>, i: nat, a: T, b: T)
    requires i < |xs|
    ensures xs[i := a][i := b] == xs[i := b]
  {
  }

  lemma RunOne(c: Config, s: State, step: Step)
    requires Enabled(c, s, step)
    ensures Run(c, s, [step]) == Some(Next(c, s, step))
  {
    hide Enabled, Next;
    assert [step][..0] == [];
  }

  /** The call up to the copy of the resource it goes on with. */
  lemma CallLoads(c: Config, s: State, i: nat, key: Key, ok: bool)
    requires i < |s.calls| && s.calls[i].Free? && key in s.pending && !InCall(s, key)
    ensures Run(c, s, [Take(i, key), Load(i, ok)])
         == Some(if !ok then s
                 else InPhase(s, i, if key in s.crs then Loaded(key, s.crs[key]) else Free)
                      .(pending := s.pending - {key}))
  {
    hide InCall, Run;
    RunOne(c, s, Take(i, key));
    RunAppend(c, s, [Take(i, key)], Load(i, ok));
    assert [Take(i, key)] + [Load(i, ok)] == [Take(i, key), Load(i, ok)];
    UpdateTwice(s.calls, i, Taken(key), if ok && key in s.crs then Loaded(key, s.crs[key]) else Free);
    assert s.calls[i := Free] == s.calls;
    assert s.pending - {key} + {key} == s.pending;
  }

  /** ... and up to the plan it patches. */
  lemma CallPlans(c: Config, s: State, i: nat, key: Key, startOk: bool, readOk: bool)
    requires i < |s.calls| && s.calls[i].Free? && key in s.pending && !InCall(s, key) && key in s.crs
    ensures !s.crs[key].started && !startOk ==>
              Run(c, s, [Take(i, key), Load(i, true), MarkStart(i, false)]) == Some(InPhase(s, i, Free))
    ensures s.crs[key].started || startOk ==>
              Run(c, s, [Take(i, key), Load(i, true), MarkStart(i, startOk), ReadCluster(i, readOk)])
              == var marked := s.(crs := if !s.crs[key].started && c.code.statusFixed
                                         then s.crs[key := s.crs[key].(started := true)] else s.crs);
                 Some(if readOk
                      then InPhase(marked, i, Planned(key, s.crs[key], s.nodeSets)).(pending := s.pending - {key})
                      else InPhase(marked, i, Free))
  {
    hide InCall, Run;
    CallLoads(c, s, i, key, true);
    var two := [Take(i, key), Load(i, true)];
    assert s.pending - {key} + {key} == s.pending;
    if !s.crs[key].started && !startOk {
      RunAppend(c, s, two, MarkStart(i, false));
      assert two + [MarkStart(i, false)] == [Take(i, key), Load(i, true), MarkStart(i, false)];
      UpdateTwice(s.calls, i, Loaded(key, s.crs[key]), Free);
    } else {
      RunAppend(c, s, two, MarkStart(i, startOk));
      RunAppend(c, s, two + [MarkStart(i, startOk)], ReadCluster(i, readOk));
      assert two + [MarkStart(i, startOk)] + [ReadCluster(i, readOk)]
          == [Take(i, key), Load(i, true), MarkStart(i, startOk), ReadCluster(i, readOk)];
      UpdateTwice(s.calls, i, Loaded(key, s.crs[key]), Marked(key, s.crs[key]));
      UpdateTwice(s.calls, i, Marked(key, s.crs[key]), if readOk then Planned(key, s.crs[key], s.nodeSets) else Free);
    }
  }

  /** The body of Reconcile is the run of one pipeline call that nothing interrupts. */
  lemma ReconcileIsOneCall(c: Config, s: State, i: nat, key: Key, env: Env)
    requires i < |s.calls| && s.calls[i].Free? && key in s.pending && !InCall(s, key)
    ensures Run(c, s, CallSteps(c, s, i, key, env)) == Some(AfterCall(c, s, i, key, env))
  {
    hide EnsureNode, InCall, Run, Next, Enabled;
    if !env.loadOk || key !in s.crs {
      CallLoads(c, s, i, key, env.loadOk);
      assert s.calls[i := Free] == s.calls;
    } else {
      CallPlans(c, s, i, key, env.startOk, env.readOk);
      if (s.crs[key].started || env.startOk) && env.readOk {
        CallPatches(c, s, i, key, env);
      }
    }
  }

  lemma CallPatches(c: Config, s: State, i: nat, key: Key, env: Env)
    requires i < |s.calls| && s.calls[i].Free? && key in s.pending && !InCall(s, key) && key in s.crs
    requires (s.crs[key].started || env.startOk) && env.readOk && env.loadOk
    ensures Run(c, s, CallSteps(c, s, i, key, env)) == Some(AfterCall(c, s, i, key, env))
  {
    hide EnsureNode, InCall, Run;
    CallPlans(c, s, i, key, env.startOk, true);
    var four := [Take(i, key), Load(i, true), MarkStart(i, env.startOk), ReadCluster(i, true)];
    var planned := Run(c, s, four).value;
    RunAppend(c, s, four, PatchCluster(i, env.patchOk));
    var five := [Take(i, key), Load(i, true), MarkStart(i, env.startOk), ReadCluster(i, true),
        PatchCluster(i, env.patchOk)];
    assert four + [PatchCluster(i, env.patchOk)] == five;
    assert s.pending - {key} + {key} == s.pending;
    var sized := Next(c, planned, PatchCluster(i, env.patchOk));
    if sized.calls[i].Sized? {
      RunAppend(c, s, five, CheckNode(i, env.sts));
    }
    UpdateTwice(s.calls, i, planned.calls[i], sized.calls[i]);
    UpdateTwice(s.calls, i, sized.calls[i], AfterCall(c, s, i, key, env).calls[i]);
  }

  // ---------------------------------------------------------------- one worker

  function PollSteps(w: nat, turns: seq<Turn>): (steps: seq<Step>)
    ensures |steps| == |turns| && forall i | 0 <= i < |turns| :: steps[i] == Poll(w, turns[i])
  {
    seq(|turns|, i requires 0 <= i < |turns| => Poll(w, turns[i]))
  }

  /** A worker's turns up to the one that ends its loop. */
  function Used(turns: seq<Turn>): seq<Turn> {
    var k := FirstDecisive(turns);
    if k == |turns| then turns else turns[..k + 1]
  }

  /** The state in which a worker has used up some turns, of which only the last may decide. */
  function AfterTurns(s: State, w: nat, r: nat, turns: seq<Turn>): State
    requires w < |s.pool.workers| && r < |s.rows|
  {
    var (rows, outcome) := Polled(s.rows, r, turns);
    var stage := if outcome == StillPolling then PollingRow(r) else Reporting(outcome == NoError);
    AtStage(s, w, stage, turns).(rows := rows)
  }

  lemma AtStageTwice(s: State, w: nat, one: Stage, a: seq<Turn>, two: Stage, b: seq<Turn>)
    requires w < |s.pool.workers|
    ensures w < |AtStage(s, w, one, a).pool.workers|
    ensures AtStage(AtStage(s, w, one, a), w, two, b) == AtStage(s, w, two, b)
  {
    UpdateTwice(s.pool.workers, w, Worker(s.pool.workers[w].task, one, a), Worker(s.pool.workers[w].task, two, b));
  }

  lemma StillTurning(s: State, w: nat, r: nat, turns: seq<Turn>)
    requires w < |s.pool.workers| && r < |s.rows| && FirstDecisive(turns) == |turns|
    ensures AfterTurns(s, w, r, turns) == AtStage(s, w, PollingRow(r), turns)
  {
    hide FirstDecisive;
  }

  lemma LastTurnCounts(s: State, w: nat, r: nat, front: seq<Turn>, turn: Turn)
    requires w < |s.pool.workers| && r < |s.rows| && FirstDecisive(front) == |front|
    ensures AfterTurns(s, w, r, front + [turn])
         == if !Decisive(turn) then AtStage(s, w, PollingRow(r), front + [turn])
            else AtStage(s, w, Reporting(turn.Tick?), front + [turn])
                 .(rows := if turn.Tick? then WithStatus(s.rows, r, SUCCESS)
                           else if turn.stored then WithStatus(s.rows, r, TIMEOUT) else s.rows)
  {
    LastTurnPolled(s.rows, r, front, turn);
    hide Polled, FirstDecisive, Decisive, WithStatus, AtStage;
  }

  lemma LastTurnPolled(rows: seq<TaskRow>, r: nat, front: seq<Turn>, turn: Turn)
    requires r < |rows| && FirstDecisive(front) == |front|
    ensures Polled(rows, r, front + [turn])
         == if !Decisive(turn) then (rows, StillPolling)
            else if turn.Tick? then (WithStatus(rows, r, SUCCESS), NoError)
            else (if turn.stored then WithStatus(rows, r, TIMEOUT) else rows, TimedOut)
  {
    hide WithStatus, FirstDecisive, Decisive;
    assert forall i | 0 <= i < |front| :: (front + [turn])[i] == front[i];
    FirstDecisiveIs(front + [turn], if Decisive(turn) then |front| else |front| + 1);
  }

  lemma PollOnce(c: Config, s: State, w: nat, r: nat, front: seq<Turn>, turn: Turn)
    requires w < |s.pool.workers| && r < |s.rows| && FirstDecisive(front) == |front| < c.limits.maxPolls
    ensures var t := AfterTurns(s, w, r, front);
            Enabled(c, t, Poll(w, turn)) && Next(c, t, Poll(w, turn)) == AfterTurns(s, w, r, front + [turn])
  {
    StillTurning(s, w, r, front);
    LastTurnCounts(s, w, r, front, turn);
    OneTurn(c, s, w, r, front, turn);
    hide *;
  }

  lemma OneTurn(c: Config, s: State, w: nat, r: nat, front: seq<Turn>, turn: Turn)
    requires w < |s.pool.workers| && r < |s.rows| && |front| < c.limits.maxPolls
    ensures var t := AtStage(s, w, PollingRow(r), front);
            && Enabled(c, t, Poll(w, turn))
            && Next(c, t, Poll(w, turn))
               == if !Decisive(turn) then AtStage(s, w, PollingRow(r), front + [turn])
                  else AtStage(s, w, Reporting(turn.Tick?), front + [turn])
                       .(rows := if turn.Tick? then WithStatus(s.rows, r, SUCCESS)
                                 else if turn.stored then WithStatus(s.rows, r, TIMEOUT) else s.rows)
  {
    AtStageTwice(s, w, PollingRow(r), front,
                 if Decisive(turn) then Reporting(turn.Tick?) else PollingRow(r), front + [turn]);
    hide Lookup;
  }

  lemma PollsAppend(c: Config, s: State, w: nat, r: nat, front: seq<Turn>, turn: Turn)
    requires w < |s.pool.workers| && r < |s.rows| && FirstDecisive(front) == |front| < c.limits.maxPolls
    requires Run(c, s, PollSteps(w, front)) == Some(AfterTurns(s, w, r, front))
    ensures Run(c, s, PollSteps(w, front) + [Poll(w, turn)]) == Some(AfterTurns(s, w, r, front + [turn]))
  {
    hide *;
    PollOnce(c, s, w, r, front, turn);
    RunAppend(c, s, PollSteps(w, front), Poll(w, turn));
  }

  /** The polling worker after some turns, in its run alone. */
  lemma {:induction false} PollsRun(c: Config, s: State, w: nat, r: nat, turns: seq<Turn>)
    requires w < |s.pool.workers| && s.pool.workers[w].stage == PollingRow(r) && s.pool.workers[w].turns == []
    requires r < |s.rows| && |turns| <= c.limits.maxPolls && FirstDecisive(turns) >= |turns| - 1
    ensures Run(c, s, PollSteps(w, turns)) == Some(AfterTurns(s, w, r, turns))
  {
    hide *;
    if turns == [] {
      NoTurns(c, s, w, r);
    } else {
      var n := |turns| - 1;
      FrontIsUndecided(w, turns);
      PollsRun(c, s, w, r, turns[..n]);
      PollsAppend(c, s, w, r, turns[..n], turns[n]);
    }
  }

  /** All turns but the last are passed over, when none before it decides. */
  lemma FrontIsUndecided(w: nat, turns: seq<Turn>)
    requires turns != [] && FirstDecisive(turns) >= |turns| - 1
    ensures var n := |turns| - 1;
            && FirstDecisive(turns[..n]) == n && turns[..n] + [turns[n]] == turns
            && PollSteps(w, turns) == PollSteps(w, turns[..n]) + [Poll(w, turns[n])]
  {
    var n := |turns| - 1;
    FirstDecisiveIs(turns[..n], n);
    hide FirstDecisive;
    assert turns[..n] + [turns[n]] == turns;
    PollStepsAppend(w, turns[..n], turns[n]);
    hide *;
  }

  lemma PollStepsAppend(w: nat, front: seq<Turn>, turn: Turn)
    ensures PollSteps(w, front + [turn]) == PollSteps(w, front) + [Poll(w, turn)]
  {
    var all, steps := front + [turn], PollSteps(w, front) + [Poll(w, turn)];
    var made := PollSteps(w, all);
    hide *;
    forall i | 0 <= i < |all|
      ensures made[i] == steps[i]
    {
      assert all[i] == if i < |front| then front[i] else turn;
    }
  }

  lemma NoTurns(c: Config, s: State, w: nat, r: nat)
    requires w < |s.pool.workers| && s.pool.workers[w].stage == PollingRow(r) && s.pool.workers[w].turns == []
    requires r < |s.rows|
    ensures Run(c, s, PollSteps(w, [])) == Some(AfterTurns(s, w, r, []))
  {
    assert PollSteps(w, []) == [];
    StillTurning(s, w, r, []);
    assert s.pool.workers[w := s.pool.workers[w]] == s.pool.workers;
    hide Enabled, Next, FirstDecisive;
  }

  /** The pipeline steps of one worker. */
  function WorkerSteps(s: State, w: nat, cr: CR, queryOk: bool, restoreOk: bool, failureStored: bool,
                       turns: seq<Turn>): seq<Step> {
    if !queryOk || |Lookup(s.rows, cr.taskId, cr.index)| != 1 then [QueryRow(w, queryOk)]
    else if !restoreOk then [QueryRow(w, true), StartRestore(w, false, failureStored)]
    else [QueryRow(w, true), StartRestore(w, true, failureStored)] + PollSteps(w, Used(turns))
  }

  lemma RunConcat(c: Config, s: State, a: seq<Step>, b: seq<Step>)
    requires Run(c, s, a).Some?
    ensures Run(c, s, a + b) == Run(c, Run(c, s, a).value, b)
  {
    hide Enabled, Next;
    if b == [] {
      assert a + b == a;
    } else {
      assert (a + b)[..|a + b| - 1] == a + b[..|b| - 1];
      RunConcat(c, s, a, b[..|b| - 1]);
    }
  }

  lemma WorkerStarts(c: Config, s: State, w: nat, cr: CR, ok: bool, stored: bool)
    requires w < |s.pool.workers| && s.pool.workers[w].stage.Querying? && s.pool.workers[w].task < |s.sends|
    requires cr == s.sends[s.pool.workers[w].task].cr && |Lookup(s.rows, cr.taskId, cr.index)| == 1
    ensures var r := Lookup(s.rows, cr.taskId, cr.index)[0];
            && r < |s.rows|
            && Run(c, s, [QueryRow(w, true), StartRestore(w, ok, stored)])
               == Some(AtStage(s, w, if ok then PollingRow(r) else Reporting(false), [])
                       .(rows := if !ok && stored then WithStatus(s.rows, r, FAILED) else s.rows))
  {
    var r, step := Lookup(s.rows, cr.taskId, cr.index)[0], StartRestore(w, ok, stored);
    RunOne(c, s, QueryRow(w, true));
    var t := Next(c, s, QueryRow(w, true));
    assert t == AtStage(s, w, Restoring(r), []);
    RunAppend(c, s, [QueryRow(w, true)], step);
    assert [QueryRow(w, true)] + [step] == [QueryRow(w, true), step];
    UpdateTwice(s.pool.workers, w, t.pool.workers[w], Next(c, t, step).pool.workers[w]);
    hide Run, Lookup;
  }

  /** What one worker's run amounts to, its turns having ended its loop or not. */
  ghost predicate RunsAs(c: Config, s: State, w: nat, steps: seq<Step>, rows: seq<TaskRow>, outcome: Outcome)
    requires w < |s.pool.workers|
  {
    && Run(c, s, steps).Some?
    && var end := Run(c, s, steps).value;
       && end.rows == rows
       && w < |end.pool.workers|
       && (outcome != StillPolling ==> end.pool.workers[w].stage == Reporting(outcome == NoError))
       && (outcome == StillPolling ==> end.pool.workers[w].stage.PollingRow?)
  }

  /**
   * restoreIndices is the run of one pipeline worker that nothing interrupts: the same rows, and
   * success reported exactly when it returns no error.
   */
  lemma RestoreIndicesIsOneWorker(c: Config, s: State, w: nat, queryOk: bool, restoreOk: bool,
                                  failureStored: bool, turns: seq<Turn>)
    requires w < |s.pool.workers| && s.pool.workers[w].stage.Querying? && s.pool.workers[w].task < |s.sends|
    requires |turns| <= c.limits.maxPolls
    ensures var cr := s.sends[s.pool.workers[w].task].cr;
            var (rows, outcome) := Restored(s.rows, cr.taskId, cr.index, queryOk, restoreOk, failureStored, turns);
            RunsAs(c, s, w, WorkerSteps(s, w, cr, queryOk, restoreOk, failureStored, turns), rows, outcome)
  {
    var cr := s.sends[s.pool.workers[w].task].cr;
    if !queryOk || |Lookup(s.rows, cr.taskId, cr.index)| != 1 {
      RunOne(c, s, QueryRow(w, queryOk));
      hide Lookup;
    } else {
      WorkerStarts(c, s, w, cr, restoreOk, failureStored);
      hide Next, Enabled;
      if restoreOk {
        WorkerPolls(c, s, w, cr, failureStored, turns);
      }
    }
  }

  lemma WorkerPolls(c: Config, s: State, w: nat, cr: CR, stored: bool, turns: seq<Turn>)
    requires w < |s.pool.workers| && s.pool.workers[w].stage.Querying? && s.pool.workers[w].task < |s.sends|
    requires cr == s.sends[s.pool.workers[w].task].cr && |Lookup(s.rows, cr.taskId, cr.index)| == 1
    requires |turns| <= c.limits.maxPolls
    ensures var (rows, outcome) := Restored(s.rows, cr.taskId, cr.index, true, true, stored, turns);
            RunsAs(c, s, w, WorkerSteps(s, w, cr, true, true, stored, turns), rows, outcome)
  {
    WorkerStarts(c, s, w, cr, true, stored);
    var r, start := Lookup(s.rows, cr.taskId, cr.index)[0], [QueryRow(w, true), StartRestore(w, true, stored)];
    var t := AtStage(s, w, PollingRow(r), []).(rows := s.rows);
    UsedTurns(s.rows, r, turns);
    PollsRun(c, t, w, r, Used(turns));
    RunConcat(c, s, start, PollSteps(w, Used(turns)));
    hide Run, Lookup, Used, Polled, PollSteps;
  }

  lemma UsedTurns(rows: seq<TaskRow>, r: nat, turns: seq<Turn>)
    requires r < |rows|
    ensures |Used(turns)| <= |turns| && FirstDecisive(Used(turns)) >= |Used(turns)| - 1
    ensures Polled(rows, r, Used(turns)) == Polled(rows, r, turns)
  {
    FirstDecisiveIs(Used(turns), FirstDecisive(turns));
  }
}
