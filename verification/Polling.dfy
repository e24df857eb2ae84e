/**
 * One restore worker: look up the task's row, start the restore, poll its recovery until it is
 * complete or the timeout fires (internal/controller/controller/restoretask_controller.go).
 * The answers of Elasticsearch, the outcomes of the database writes and the choices of the select
 * are inputs.
 */
module Polling {

  datatype TaskRow = TaskRow(taskId: string, index: string, status: string)

  const SUCCESS := "SUCCESS"
  const FAILED := "FAILED"
  const TIMEOUT := "TIMEOUT"

  /** A recovery answer: an error, or the percent column of its rows. */
  datatype Recovery = Unreadable | Percents(rows: seq<string>)

  /** One turn of the loop: the ticker with its answer, or the timeout; stored tells whether a
      status write made in that turn succeeds. */
  datatype Turn = Tick(recovery: Recovery, stored: bool) | Expired(stored: bool)

  /** How the worker ends, or that it is still polling when the turns run out. */
  datatype Outcome = NoError | QueryFailed | RestoreFailed | TimedOut | StillPolling

  predicate Complete(r: Recovery) {
    r.Percents? && r.rows != [] && r.rows[0] == "100%"
  }

  /** A turn that ends the loop. */
  predicate Decisive(t: Turn) {
    t.Expired? || (Complete(t.recovery) && t.stored)
  }

  /** Position of the first decisive turn, or the number of turns when none is. */
  function FirstDecisive(turns: seq<Turn>): (k: nat)
    ensures k <= |turns|
    ensures forall i | 0 <= i < k :: !Decisive(turns[i])
    ensures k < |turns| ==> Decisive(turns[k])
  {
    if turns == [] || Decisive(turns[0]) then 0 else 1 + FirstDecisive(turns[1..])
  }

  /** Positions of the rows a lookup by task id and index finds. */
  function Lookup(rows: seq<TaskRow>, taskId: string, index: string): (found: seq<nat>)
    ensures forall i | 0 <= i < |found| ::
              found[i] < |rows| && rows[found[i]].taskId == taskId && rows[found[i]].index == index
    ensures forall r | 0 <= r < |rows| && rows[r].taskId == taskId && rows[r].index == index :: r in found
    ensures forall i, j | 0 <= i < j < |found| :: found[i] < found[j]
  {
    if rows == [] then []
    else
      var n := |rows| - 1;
      var front := Lookup(rows[..n], taskId, index);
      if rows[n].taskId == taskId && rows[n].index == index then front + [n] else front
  }

  function WithStatus(rows: seq<TaskRow>, r: nat, status: string): seq<TaskRow>
    requires r < |rows|
  {
    rows[r := rows[r].(status := status)]
  }

  /** The table and the outcome, decided by the first decisive turn alone. */
  function Polled(rows: seq<TaskRow>, r: nat, turns: seq<Turn>): (seq<TaskRow>, Outcome)
    requires r < |rows|
  {
    var k := FirstDecisive(turns);
    if k == |turns| then (rows, StillPolling)
    else if turns[k].Tick? then (WithStatus(rows, r, SUCCESS), NoError)
    else (if turns[k].stored then WithStatus(rows, r, TIMEOUT) else rows, TimedOut)
  }

  /** The whole worker: note that a lookup finding no row, or several, ends without an error. */
  function Restored(rows: seq<TaskRow>, taskId: string, index: string,
                    queryOk: bool, restoreOk: bool, failureStored: bool, turns: seq<Turn>)
    : (seq<TaskRow>, Outcome)
  {
    var found := Lookup(rows, taskId, index);
    if !queryOk then (rows, QueryFailed)
    else if |found| != 1 then (rows, NoError)
    else if !restoreOk then
      (if failureStored then WithStatus(rows, found[0], FAILED) else rows, RestoreFailed)
    else Polled(rows, found[0], turns)
  }

  /** The task table. */
  class TaskTable {
    var rows: seq<TaskRow>

    method UpdateStatus(r: nat, status: string, stored: bool)
      requires r < |rows|
      modifies this
      ensures rows == if stored then WithStatus(old(rows), r, status) else old(rows)
    {
      if stored {
        rows := rows[r := rows[r].(status := status)];
      }
    }

    /** restoreIndices on a task whose first index is given. */
    method RestoreIndices(taskId: string, index: string,
                          queryOk: bool, restoreOk: bool, failureStored: bool, turns: seq<Turn>)
      returns (outcome: Outcome)
      modifies this
      ensures (rows, outcome) == Restored(old(rows), taskId, index, queryOk, restoreOk, failureStored, turns)
    {
      if !queryOk {
        return QueryFailed;
      }
      var found := Lookup(rows, taskId, index);
      if |found| != 1 {
        return NoError;
      }
      var task := found[0];
      if !restoreOk {
        UpdateStatus(task, FAILED, failureStored);
        return RestoreFailed;
      }
      for i := 0 to |turns|
        invariant rows == old(rows)
        invariant forall j | 0 <= j < i :: !Decisive(turns[j])
      {
        match turns[i] {
          case Tick(recovery, stored) =>
            if recovery.Unreadable? {
              continue;
            }
            if recovery.rows == [] {
              continue;
            }
            if recovery.rows[0] == "100%" {
              UpdateStatus(task, SUCCESS, stored);
              if !stored {
                continue;
              }
              FirstDecisiveIs(turns, i);
              return NoError;
            }
          case Expired(stored) =>
            FirstDecisiveIs(turns, i);
            UpdateStatus(task, TIMEOUT, stored);
            return TimedOut;
        }
      }
      FirstDecisiveIs(turns, |turns|);
      return StillPolling;
    }
  }

  lemma FirstDecisiveIs(turns: seq<Turn>, k: nat)
    requires k <= |turns| && (forall i | 0 <= i < k :: !Decisive(turns[i]))
    requires k < |turns| ==> Decisive(turns[k])
    ensures FirstDecisive(turns) == k
  {
  }

  /** Undecisive turns can be put in or left out anywhere: empty answers, read errors, partial
      recoveries and failed success writes never end the loop nor change how it ends. */
  lemma UndecisiveTurnsDoNotMatter(rows: seq<TaskRow>, r: nat, a: seq<Turn>, noise: seq<Turn>, b: seq<Turn>)
    requires r < |rows| && forall t | t in noise :: !Decisive(t)
    ensures Polled(rows, r, a + noise + b) == Polled(rows, r, a + b)
  {
    var all := a + noise + b;
    assert forall i | 0 <= i < |noise| :: noise[i] in noise;
    if FirstDecisive(a) < |a| {
      FirstDecisiveIs(all, FirstDecisive(a));
      FirstDecisiveIs(a + b, FirstDecisive(a));
    } else {
      FirstDecisiveIs(all, |a| + |noise| + FirstDecisive(b));
      FirstDecisiveIs(a + b, |a| + FirstDecisive(b));
    }
  }

  /** Later turns are never looked at once the loop has ended. */
  lemma DecidedStaysDecided(rows: seq<TaskRow>, r: nat, turns: seq<Turn>, more: seq<Turn>)
    requires r < |rows| && Polled(rows, r, turns).1 != StillPolling
    ensures Polled(rows, r, turns + more) == Polled(rows, r, turns)
  {
    FirstDecisiveIs(turns + more, FirstDecisive(turns));
  }

  /**
   * When the worker ends without an error: the row count was not one and nothing was restored, or
   * the restore was started and some turn read "100%" first and stored SUCCESS before any timeout.
   */
  lemma NoErrorMeans(rows: seq<TaskRow>, taskId: string, index: string,
                     queryOk: bool, restoreOk: bool, failureStored: bool, turns: seq<Turn>)
    ensures Restored(rows, taskId, index, queryOk, restoreOk, failureStored, turns).1 == NoError
            <==> queryOk && (|Lookup(rows, taskId, index)| != 1
                             || (restoreOk && exists k | 0 <= k < |turns| ::
                                   && turns[k].Tick? && turns[k].recovery.Percents? && turns[k].recovery.rows != []
                                   && turns[k].recovery.rows[0] == "100%" && turns[k].stored
                                   && forall i | 0 <= i < k :: turns[i].Tick?))
  {
    forall k | 0 <= k < |turns| && turns[k].Tick? && Decisive(turns[k]) && forall i | 0 <= i < k :: turns[i].Tick?
      ensures FirstDecisive(turns) <= k && turns[FirstDecisive(turns)].Tick?
    {
    }
  }

  /** Which way the worker ends, and that a lookup that fails or does not find one row changes nothing. */
  lemma OutcomesAre(rows: seq<TaskRow>, taskId: string, index: string,
                    queryOk: bool, restoreOk: bool, failureStored: bool, turns: seq<Turn>)
    ensures var (after, outcome) := Restored(rows, taskId, index, queryOk, restoreOk, failureStored, turns);
            var found := |Lookup(rows, taskId, index)| == 1;
            && (!queryOk || !found ==> after == rows)
            && (outcome == QueryFailed <==> !queryOk)
            && (outcome == RestoreFailed <==> queryOk && found && !restoreOk)
            && (outcome == TimedOut <==>
                  && queryOk && found && restoreOk
                  && exists k | 0 <= k < |turns| :: turns[k].Expired? && forall i | 0 <= i < k :: !Decisive(turns[i]))
            && (outcome == StillPolling <==>
                  queryOk && found && restoreOk && forall i | 0 <= i < |turns| :: !Decisive(turns[i]))
  {
    hide WithStatus;
    var k := FirstDecisive(turns);
    forall j | 0 <= j < |turns| && turns[j].Expired? && forall i | 0 <= i < j :: !Decisive(turns[i])
      ensures k == j
    {
    }
  }

  /** What the table says afterwards: only the task's own row changes, and its status tells how the
      worker ended, if that could be stored. */
  lemma RowTellsOutcome(rows: seq<TaskRow>, taskId: string, index: string,
                        queryOk: bool, restoreOk: bool, failureStored: bool, turns: seq<Turn>, r: nat)
    requires queryOk && Lookup(rows, taskId, index) == [r] && r < |rows|
    ensures var (after, outcome) := Restored(rows, taskId, index, queryOk, restoreOk, failureStored, turns);
            && |after| == |rows|
            && (forall q | 0 <= q < |rows| && q != r :: after[q] == rows[q])
            && after[r].taskId == taskId && after[r].index == index
            && (outcome == NoError ==> after[r].status == "SUCCESS")
            && (outcome == RestoreFailed ==> after[r].status == if failureStored then "FAILED" else rows[r].status)
            && (outcome == TimedOut ==>
                  after[r].status == if turns[FirstDecisive(turns)].stored then "TIMEOUT" else rows[r].status)
            && (outcome == StillPolling ==> after == rows)
  {
    hide Lookup, FirstDecisive, Polled;
    assert Lookup(rows, taskId, index)[0] == r;
    PolledTells(rows, r, turns);
  }

  lemma PolledTells(rows: seq<TaskRow>, r: nat, turns: seq<Turn>)
    requires r < |rows|
    ensures var (after, outcome) := Polled(rows, r, turns);
            && outcome != QueryFailed && outcome != RestoreFailed
            && (outcome == StillPolling ==> after == rows)
            && (outcome != StillPolling ==> FirstDecisive(turns) < |turns|)
            && (outcome == NoError ==> after == WithStatus(rows, r, SUCCESS))
            && (outcome == TimedOut ==>
                  after == if turns[FirstDecisive(turns)].stored then WithStatus(rows, r, TIMEOUT) else rows)
  {
    hide WithStatus;
  }
}
