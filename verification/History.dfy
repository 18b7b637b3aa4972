/** The persisted history of operations (internal/tasks/history.go, recovery.go). The
    bucket is an ordered map from task id to row. */
module History {
  import opened Text
  import opened Progress

  type Cluster = string

  const HISTORY_ROW_CAP := 1000
  const RECOVER_NOTE := "bm process restarted mid-op"

  /** The frozen part of a snapshot that a finished row keeps. */
  datatype Result = Result(
    state: OpState,
    detail: string,
    summary: seq<(string, string)>,
    hostStatuses: seq<HostStatus>,
    failureNote: string)

  /** `snapshotResult`. */
  function ResultOf(s: Snapshot): Result {
    Result(s.state, s.detail, s.summary, s.hostStatuses, s.failureNote)
  }

  datatype Row = Row(cluster: Cluster, at: nat, status: OpState, failureNote: string, result: Option<Result>)

  type Rows = map<TaskId, Row>

  function RecoveredRow(r: Row): Row {
    r.(status := Failed, failureNote := RECOVER_NOTE,
       result := Some(Result(Failed, "", [], [], RECOVER_NOTE)))
  }

  /** A row as recovery found it, or turned from running to failed. */
  predicate Recovered(was: Row, now: Row) {
    now == was || (was.status.Running? && now == RecoveredRow(was))
  }

  lemma RecoveredInWords(was: Row, now: Row)
    requires Recovered(was, now) && was.status.Running? && !now.status.Running?
    ensures now == Row(was.cluster, was.at, Failed, "bm process restarted mid-op",
                       Some(Result(Failed, "", [], [], "bm process restarted mid-op")))
  {
  }

  /** What a sweep leaves: the newest rows, at most `HISTORY_ROW_CAP` of them. */
  ghost predicate SweptTo(rows: Rows, kept: set<TaskId>) {
    && kept <= rows.Keys
    && |kept| == (if |rows| <= HISTORY_ROW_CAP then |rows| else HISTORY_ROW_CAP)
    && forall d, k :: d in rows.Keys - kept && k in kept ==> d < k
  }

  function Restrict(rows: Rows, keep: set<TaskId>): Rows {
    map id | id in rows && id in keep :: rows[id]
  }

  /** The rows a `Clear` keeps: none for a zero time, else those not older than it. */
  function NotOlder(rows: Rows, before: nat): set<TaskId> {
    set id | id in rows && before != 0 && rows[id].at >= before
  }

  /** `HistoryFilter`; a zero time or empty string does not filter. */
  datatype Filter = Filter(status: Option<OpState>, cluster: Cluster, since: nat, until: nat, limit: nat)
  {
    predicate Matches(r: Row) {
      && (status.Some? ==> r.status == status.value)
      && (cluster != "" ==> r.cluster == cluster)
      && (since != 0 ==> r.at >= since)
      && (until != 0 ==> r.at <= until)
    }
  }

  /** A row is refused exactly for another status or cluster, or a time outside the two ends,
      both of which are inside; the ends and the cluster may be left out. */
  lemma RefusedExactly(f: Filter, r: Row)
    ensures !f.Matches(r) <==>
            || (f.status.Some? && r.status != f.status.value)
            || (f.cluster != "" && r.cluster != f.cluster)
            || r.at < f.since
            || (0 < f.until < r.at)
  {
  }

  const RUNNING_ROWS := Filter(Some(Running), "", 0, 0, 0)

  class Store {
    var rows: Rows

    constructor ()
      ensures rows == map[]
    {
      rows := map[];
    }

    /** Refused when the id is taken or the write fails. */
    method Insert(id: TaskId, row: Row) returns (ok: bool)
      modifies this
      ensures ok ==> id !in old(rows) && rows == old(rows)[id := row]
      ensures !ok ==> rows == old(rows)
    {
      ok := *;
      ok := ok && id !in rows;
      if ok {
        rows := rows[id := row];
      }
    }

    method Update(id: TaskId, mutator: Row -> Row) returns (ok: bool)
      modifies this
      ensures ok ==> id in old(rows) && rows == old(rows)[id := mutator(old(rows)[id])]
      ensures !ok ==> rows == old(rows)
    {
      ok := *;
      ok := ok && id in rows;
      if ok {
        rows := rows[id := mutator(rows[id])];
      }
    }

    /** The cursor's first key. */
    method First() returns (k: TaskId)
      requires rows != map[]
      ensures k in rows && forall id :: id in rows ==> k <= id
    {
      var todo := rows.Keys;
      assert todo != {};
      k :| k in todo;
      todo := todo - {k};
      while todo != {}
        invariant todo <= rows.Keys && k in rows
        invariant forall id :: id in rows && id !in todo ==> k <= id
        decreases todo
      {
        var id :| id in todo;
        todo := todo - {id};
        if id < k {
          k := id;
        }
      }
    }

    /** Deletes from the oldest key on until the cap is met. */
    method Sweep() returns (deleted: nat)
      modifies this
      ensures SweptTo(old(rows), rows.Keys)
      ensures rows == Restrict(old(rows), rows.Keys)
      ensures |rows| <= 1000 && (|old(rows)| <= 1000 ==> rows == old(rows)) && (|old(rows)| > 1000 ==> |rows| == 1000)
      ensures forall id :: id in rows ==> id in old(rows) && rows[id] == old(rows)[id]
      ensures forall gone, id :: gone in old(rows).Keys - rows.Keys && id in rows ==> gone < id
      ensures deleted == |old(rows)| - |rows|
    {
      deleted := 0;
      if |rows| <= HISTORY_ROW_CAP {
        return;
      }
      var toDel := |rows| - HISTORY_ROW_CAP;
      while deleted < toDel
        invariant deleted <= toDel && |rows| == |old(rows)| - deleted
        invariant rows.Keys <= old(rows).Keys && rows == Restrict(old(rows), rows.Keys)
        invariant forall d, k :: d in old(rows).Keys - rows.Keys && k in rows ==> d < k
      {
        var k := First();
        ghost var before := rows;
        assert |rows.Keys - {k}| == |rows.Keys| - 1;
        rows := rows - {k};
        deleted := deleted + 1;
        assert forall d :: d in old(rows).Keys - rows.Keys ==> d == k || d in old(rows).Keys - before.Keys;
        assert forall id :: id in rows ==> id in before && k < id;
      }
    }

    /** Collects the rows older than `before`, or all of them, then deletes them. */
    method Clear(before: nat) returns (deleted: nat)
      modifies this
      ensures rows == Restrict(old(rows), NotOlder(old(rows), before))
      ensures before == 0 ==> rows == map[]
      ensures before != 0 ==> forall id :: id in rows <==> id in old(rows) && old(rows)[id].at >= before
      ensures forall id :: id in rows ==> rows[id] == old(rows)[id]
      ensures deleted == |old(rows)| - |rows|
    {
      var toDel: set<TaskId> := {};
      var todo := rows.Keys;
      while todo != {}
        invariant todo <= rows.Keys
        invariant toDel == set id | id in rows && id !in todo && (before == 0 || rows[id].at < before)
        decreases todo
      {
        var k :| k in todo;
        todo := todo - {k};
        if before == 0 || rows[k].at < before {
          toDel := toDel + {k};
        }
      }
      assert |rows.Keys - toDel| == |rows.Keys| - |toDel|;
      rows := rows - toDel;
      deleted := |toDel|;
      assert rows.Keys == NotOlder(old(rows), before);
    }

    /** Rows that match, newest first, at most `limit` when it is not 0. */
    method List(f: Filter) returns (ids: seq<TaskId>)
      ensures forall i :: 0 <= i < |ids| ==> ids[i] in rows && f.Matches(rows[ids[i]])
      ensures forall i, j :: 0 <= i < j < |ids| ==> ids[i] > ids[j]
      ensures forall id :: id in rows && f.Matches(rows[id]) && id !in ids ==>
                f.limit > 0 && |ids| == f.limit && forall i :: 0 <= i < |ids| ==> ids[i] > id
      ensures f.limit > 0 ==> |ids| <= f.limit
    {
      ids := [];
      var todo := rows.Keys;
      while todo != {}
        invariant todo <= rows.Keys
        invariant forall i :: 0 <= i < |ids| ==> ids[i] in rows && ids[i] !in todo && f.Matches(rows[ids[i]])
        invariant forall i, id :: 0 <= i < |ids| && id in todo ==> id < ids[i]
        invariant forall i, j :: 0 <= i < j < |ids| ==> ids[i] > ids[j]
        invariant forall id :: id in rows && id !in todo && f.Matches(rows[id]) ==> id in ids
        invariant f.limit > 0 ==> |ids| < f.limit
        decreases todo
      {
        var k := Greatest(todo);
        todo := todo - {k};
        if f.Matches(rows[k]) {
          ids := ids + [k];
          if f.limit > 0 && |ids| >= f.limit {
            return;
          }
        }
      }
    }

    /** `RecoverInFlight`: every running row becomes failed, or an update failed. */
    method RecoverInFlight() returns (ok: bool, count: nat)
      modifies this
      ensures rows.Keys == old(rows).Keys
      ensures forall id :: id in rows ==>
                Recovered(old(rows)[id], rows[id])
      ensures ok ==> forall id :: id in rows ==> !rows[id].status.Running?
      ensures ok ==> forall id :: id in rows && old(rows)[id].status.Running? ==>
                rows[id] == Row(old(rows)[id].cluster, old(rows)[id].at, Failed, "bm process restarted mid-op",
                                Some(Result(Failed, "", [], [], "bm process restarted mid-op")))
    {
      var ids := List(RUNNING_ROWS);
      for i := 0 to |ids|
        invariant rows.Keys == old(rows).Keys
        invariant forall j :: i <= j < |ids| ==> rows[ids[j]] == old(rows)[ids[j]]
        invariant forall j :: 0 <= j < i ==> rows[ids[j]].status.Failed?
        invariant forall id :: id in rows ==> Recovered(old(rows)[id], rows[id])
        invariant forall id :: id in rows && id !in ids ==> rows[id] == old(rows)[id]
      {
        var updated := Update(ids[i], RecoveredRow);
        if !updated {
          return false, 0;
        }
      }
      forall id | id in rows && old(rows)[id].status.Running?
        ensures rows[id] == Row(old(rows)[id].cluster, old(rows)[id].at, Failed, "bm process restarted mid-op",
                                Some(Result(Failed, "", [], [], "bm process restarted mid-op")))
      {
        RecoveredInWords(old(rows)[id], rows[id]);
      }
      return true, |ids|;
    }
  }

  /** The last key of a cursor over `s`. */
  method Greatest(s: set<TaskId>) returns (k: TaskId)
    requires s != {}
    ensures k in s && forall id :: id in s ==> id <= k
  {
    k :| k in s;
    var todo := s - {k};
    while todo != {}
      invariant todo <= s && k in s
      invariant forall id :: id in s && id !in todo ==> id <= k
      decreases todo
    {
      var id :| id in todo;
      todo := todo - {id};
      if id > k {
        k := id;
      }
    }
  }
}
