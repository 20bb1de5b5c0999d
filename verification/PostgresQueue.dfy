/** PostgresTaskQueue as an object over its table: every method is the statement of LeaseTable
    that the run theorems are about. */
module PostgresQueue {
  import opened Tasks
  import opened LeaseTable

  class PostgresTaskQueue {
    const leaseSeconds: real
    var table: Table

    ghost predicate Valid()
      reads this
    {
      leaseSeconds > 0.0 && ValidTable(table)
    }

    constructor (leaseSeconds: real)
      requires leaseSeconds > 0.0
      ensures Valid() && table == map[] && this.leaseSeconds == leaseSeconds
    {
      this.leaseSeconds := leaseSeconds;
      table := map[];
    }

    method Enqueue(spec: TaskSpec) returns (r: Outcome)
      requires Valid()
      modifies this
      ensures Valid()
      ensures (table, r) == Step(leaseSeconds, old(table), Op.Enqueue(spec))
      ensures spec.key != None && (exists t :: t in old(table) && old(table)[t].task.spec.key == spec.key) ==>
        table == old(table) && r.Returned? && r.task.spec.key == spec.key && r.task.spec.id in table && table[r.task.spec.id].task == r.task
      ensures (spec.key == None || forall t :: t in old(table) ==> old(table)[t].task.spec.key != spec.key) ==>
        if spec.id in old(table) then table == old(table) && r == Raised(StoreFailure)
        else r == Returned(Task(spec, Queued, 0, None, None, None, None, None)) && table == old(table)[spec.id := Row(r.task, None)]
    {
      StepKeepsValid(leaseSeconds, table, Op.Enqueue(spec));
      if KeyTaken(table, spec.key) {
        var t :| t in table && table[t].task.spec.key == spec.key;
        r := Returned(table[t].task);
      } else if spec.id in table {
        r := Raised(StoreFailure);
      } else {
        table := table[spec.id := Row(NewTask(spec), None)];
        r := Returned(NewTask(spec));
      }
    }

    /** The claim statement. */
    method UpdateNext(worker: WorkerId, now: real, skipped: set<TaskId>) returns (r: Outcome)
      requires Valid()
      modifies this
      ensures Valid()
      ensures (table, r) == Step(leaseSeconds, old(table), Op.Claim(worker, now, skipped))
    {
      StepKeepsValid(leaseSeconds, table, Op.Claim(worker, now, skipped));
      ClaimFindsWork(leaseSeconds, table, worker, now, skipped);
      if t :| t in table && IsNext(table, skipped, t) {
        ClaimWritesNext(leaseSeconds, table, worker, now, skipped, t);
        var result := Write(leaseSeconds, table, t, Claimed(worker, now));
        table, r := result.0, result.1;
      } else {
        r := Idle;
      }
    }

    method Claim(worker: WorkerId, now: real, skipped: set<TaskId>) returns (r: Outcome)
      requires Valid()
      modifies this
      ensures Valid()
      ensures (table, r) == Step(leaseSeconds, old(table), Op.Claim(worker, now, skipped))
      ensures r.Returned? || (r == Idle && table == old(table))
      ensures r == Idle <==> forall u :: u in old(table) && old(table)[u].task.status == Queued ==> u in skipped
      ensures r.Returned? ==>
        (var t := r.task.spec.id;
         && t in old(table) && t !in skipped && old(table)[t].task.status == Queued
         && r.task == old(table)[t].task.(status := Running, lockedBy := Some(worker), attempts := old(table)[t].task.attempts + 1,
                                          startedAt := Some(now), lastHeartbeatAt := Some(now))
         && table == old(table)[t := Row(r.task, Some(now + leaseSeconds))]
         && forall u :: u in old(table) && old(table)[u].task.status == Queued && u !in skipped ==>
              && r.task.spec.enqueuedAt <= old(table)[u].task.spec.enqueuedAt
              && (r.task.spec.enqueuedAt == old(table)[u].task.spec.enqueuedAt && t != u ==>
                    (|t| < |u| && u[..|t|] == t)
                    || exists k :: 0 <= k < |t| && k < |u| && t[..k] == u[..k] && t[k] < u[k]))
    {
      ClaimMeans(leaseSeconds, table, worker, now, skipped);
      hide Step, ValidTable;
      r := UpdateNext(worker, now, skipped);
    }

    /** Run a lock-guarded conditional update; tell a missing task from one not owned. */
    method LockedMutate(t: TaskId, worker: WorkerId, e: Effect) returns (r: Outcome)
      modifies this
      ensures (table, r) == LockedWrite(leaseSeconds, old(table), t, worker, e)
    {
      if t in table && table[t].task.status == Running && table[t].task.lockedBy == Some(worker) {
        var row := Apply(leaseSeconds, table[t], e);
        table := table[t := row];
        r := Returned(row.task);
      } else if t in table {
        r := Raised(NotLocked);
      } else {
        r := Raised(UnknownTask);
      }
    }

    method Heartbeat(t: TaskId, worker: WorkerId, now: real) returns (r: Outcome)
      requires Valid()
      modifies this
      ensures Valid()
      ensures (table, r) == Step(leaseSeconds, old(table), Op.Heartbeat(t, worker, now))
      ensures r.Returned? <==> t in old(table) && old(table)[t].task.status == Running && old(table)[t].task.lockedBy == Some(worker)
      ensures r.Returned? ==> table == old(table)[t := Row(old(table)[t].task.(lastHeartbeatAt := Some(now)), Some(now + leaseSeconds))] && r.task == table[t].task
      ensures !r.Returned? ==> table == old(table) && r == Raised(if t in old(table) then NotLocked else UnknownTask)
    {
      StepKeepsValid(leaseSeconds, table, Op.Heartbeat(t, worker, now));
      r := LockedMutate(t, worker, Beat(worker, now));
    }

    method Complete(t: TaskId, worker: WorkerId, now: real) returns (r: Outcome)
      requires Valid()
      modifies this
      ensures Valid()
      ensures (table, r) == Step(leaseSeconds, old(table), Op.Complete(t, worker, now))
      ensures r.Returned? <==> t in old(table) && old(table)[t].task.status == Running && old(table)[t].task.lockedBy == Some(worker)
      ensures r.Returned? ==> table == old(table)[t := Row(old(table)[t].task.(status := Succeeded, finishedAt := Some(now), failureReason := None, lockedBy := None), None)] && r.task == table[t].task
      ensures !r.Returned? ==> table == old(table) && r == Raised(if t in old(table) then NotLocked else UnknownTask)
    {
      StepKeepsValid(leaseSeconds, table, Op.Complete(t, worker, now));
      r := LockedMutate(t, worker, Completed(worker, now));
    }

    method Fail(t: TaskId, worker: WorkerId, reason: string, now: real) returns (r: Outcome)
      requires Valid()
      modifies this
      ensures Valid()
      ensures (table, r) == Step(leaseSeconds, old(table), Op.Fail(t, worker, reason, now))
      ensures r.Returned? <==> t in old(table) && old(table)[t].task.status == Running && old(table)[t].task.lockedBy == Some(worker)
      ensures r.Returned? ==> table == old(table)[t := Row(old(table)[t].task.(status := Failed, finishedAt := Some(now), failureReason := Some(reason), lockedBy := None), None)] && r.task == table[t].task
      ensures !r.Returned? ==> table == old(table) && r == Raised(if t in old(table) then NotLocked else UnknownTask)
    {
      StepKeepsValid(leaseSeconds, table, Op.Fail(t, worker, reason, now));
      r := LockedMutate(t, worker, Failing(worker, reason, now));
    }

    method Retry(t: TaskId, worker: WorkerId, reason: string) returns (r: Outcome)
      requires Valid()
      modifies this
      ensures Valid()
      ensures (table, r) == Step(leaseSeconds, old(table), Op.Retry(t, worker, reason))
      ensures r.Returned? <==> t in old(table) && old(table)[t].task.status == Running && old(table)[t].task.lockedBy == Some(worker)
      ensures r.Returned? ==> table == old(table)[t := Row(old(table)[t].task.(status := Queued, lockedBy := None, startedAt := None, lastHeartbeatAt := None, finishedAt := None,
          failureReason := Some(reason)), None)] && r.task == table[t].task
      ensures !r.Returned? ==> table == old(table) && r == Raised(if t in old(table) then NotLocked else UnknownTask)
    {
      StepKeepsValid(leaseSeconds, table, Op.Retry(t, worker, reason));
      r := LockedMutate(t, worker, Retried(worker, reason));
    }

    method Cancel(t: TaskId, reason: string, now: real) returns (r: Outcome)
      requires Valid()
      modifies this
      ensures Valid()
      ensures (table, r) == Step(leaseSeconds, old(table), Op.Cancel(t, reason, now))
      ensures t !in old(table) ==> table == old(table) && r == Raised(UnknownTask)
      ensures t in old(table) ==> r.Returned? && r.task == table[t].task
      ensures t in old(table) ==> table == old(table)[t := Row(old(table)[t].task.(status := Cancelled, finishedAt := Some(now),
          failureReason := Some(reason), lockedBy := None), None)]
    {
      StepKeepsValid(leaseSeconds, table, Op.Cancel(t, reason, now));
      if t in table {
        var row := Apply(leaseSeconds, table[t], Cancelling(reason, now));
        table := table[t := row];
        r := Returned(row.task);
      } else {
        r := Raised(UnknownTask);
      }
    }

    method Pause(t: TaskId, worker: WorkerId) returns (r: Outcome)
      requires Valid()
      modifies this
      ensures Valid()
      ensures (table, r) == Step(leaseSeconds, old(table), Op.Pause(t, worker))
      ensures r.Returned? <==> t in old(table) && old(table)[t].task.status == Running && old(table)[t].task.lockedBy == Some(worker)
      ensures r.Returned? ==> table == old(table)[t := Row(old(table)[t].task.(status := Paused, lockedBy := None), None)] && r.task == table[t].task
      ensures !r.Returned? ==> table == old(table) && r == Raised(if t in old(table) then NotLocked else UnknownTask)
    {
      StepKeepsValid(leaseSeconds, table, Op.Pause(t, worker));
      r := LockedMutate(t, worker, Pausing(worker));
    }

    method Resume(t: TaskId) returns (r: Outcome)
      requires Valid()
      modifies this
      ensures Valid()
      ensures (table, r) == Step(leaseSeconds, old(table), Op.Resume(t))
      ensures r.Returned? <==> t in old(table) && old(table)[t].task.status == Paused
      ensures r.Returned? ==> table == old(table)[t := Row(old(table)[t].task.(status := Queued), old(table)[t].lease)] && r.task == table[t].task
      ensures !r.Returned? ==> table == old(table) && r == Raised(if t in old(table) then NotPaused else UnknownTask)
    {
      StepKeepsValid(leaseSeconds, table, Op.Resume(t));
      if t in table && table[t].task.status == Paused {
        var row := Apply(leaseSeconds, table[t], Resumed);
        table := table[t := row];
        r := Returned(row.task);
      } else if t in table {
        r := Raised(NotPaused);
      } else {
        r := Raised(UnknownTask);
      }
    }

    /** One reaper statement: rewrite the rows `ids` and list the rewritten tasks, each once, in
        the order in which the database returns them. */
    method Reap(ids: set<TaskId>, e: Effect) returns (listed: seq<Task>)
      requires Valid() && ids <= table.Keys
      modifies this
      ensures table == map t | t in old(table) :: if t in ids then Apply(leaseSeconds, old(table)[t], e) else old(table)[t]
      ensures ListsOnce(listed, table, ids)
    {
      table := map t | t in table :: if t in ids then Apply(leaseSeconds, table[t], e) else table[t];
      listed := Returning(table, ids);
    }

    static method Returning(table: Table, ids: set<TaskId>) returns (listed: seq<Task>)
      requires ids <= table.Keys && forall t :: t in ids ==> table[t].task.spec.id == t
      ensures ListsOnce(listed, table, ids)
    {
      hide ListsOnce;
      listed := [];
      var left := ids;
      ListNone(table, ids - left);
      while left != {}
        invariant left <= ids && ListsOnce(listed, table, ids - left)
        decreases left
      {
        var t :| t in left;
        ListOneMore(listed, table, ids - left, t);
        assert ids - (left - {t}) == ids - left + {t};
        listed := listed + [table[t].task];
        left := left - {t};
      }
      assert ids - left == ids;
    }

    method RequeueExpired(now: real) returns (listed: seq<Task>)
      requires Valid()
      modifies this
      ensures Valid() && table == Step(leaseSeconds, old(table), ReapRequeue(now)).0
      ensures ListsOnce(listed, table, set t | t in old(table) && Requeueable(old(table), now, t))
    {
      StepKeepsValid(leaseSeconds, table, ReapRequeue(now));
      var expired := set t | t in table && Requeueable(table, now, t);
      listed := Reap(expired, Requeued(now));
    }

    method TimeOutExhausted(now: real) returns (listed: seq<Task>)
      requires Valid()
      modifies this
      ensures Valid() && table == Step(leaseSeconds, old(table), ReapTimeOut(now)).0
      ensures ListsOnce(listed, table, set t | t in old(table) && Exhausted(old(table), now, t))
    {
      StepKeepsValid(leaseSeconds, table, ReapTimeOut(now));
      var expired := set t | t in table && Exhausted(table, now, t);
      listed := Reap(expired, Exhausting(now));
    }

    /** The reaper with no other worker between its two statements: it lists exactly the tasks
        whose lease had expired, each once and as it now is, first those that are queued again
        and then those that timed out. */
    method ReapExpiredLeases(now: real) returns (reaped: seq<Task>)
      requires Valid()
      modifies this
      ensures Valid()
      ensures table == Step(leaseSeconds, Step(leaseSeconds, old(table), ReapRequeue(now)).0, ReapTimeOut(now)).0
      ensures ListsOnce(reaped, table, set t | t in old(table) && Expired(old(table)[t], now))
      ensures exists n :: 0 <= n <= |reaped| && SplitAt(reaped, n)
      ensures table.Keys == old(table).Keys && forall t :: t in table ==> table[t] == AfterReaper(old(table)[t], now)
      ensures forall task :: task in reaped <==>
        task.spec.id in table && task == table[task.spec.id].task && old(table)[task.spec.id].task.status == Running
        && old(table)[task.spec.id].lease.Some? && old(table)[task.spec.id].lease.value < now
    {
      ghost var start := table;
      var requeued := RequeueExpired(now);
      ghost var middle := table;
      var timedOut := TimeOutExhausted(now);
      reaped := requeued + timedOut;
      ReapedLists(leaseSeconds, start, now, requeued, timedOut);
      ReaperWrites(leaseSeconds, start, now);
      hide Step, ValidTable, AfterReaper;
    }
  }

  /** A row after a reaper: late ones go back to the queue while attempts are left, and time out
      after that. */
  function AfterReaper(row: Row, now: real): Row {
    var task := row.task;
    if task.status != Running || row.lease.None? || row.lease.value >= now then row
    else if task.attempts < task.spec.maxAttempts then
      Row(task.(status := Queued, lockedBy := None, startedAt := None, lastHeartbeatAt := None,
                failureReason := Some("Task lease expired; requeued")), None)
    else
      Row(task.(status := TimedOut, lockedBy := None, finishedAt := Some(now),
                failureReason := Some("Task lease expired; attempts exhausted")), None)
  }

  lemma ReaperWrites(lease: real, tb: Table, now: real)
    ensures var after := Step(lease, Step(lease, tb, ReapRequeue(now)).0, ReapTimeOut(now)).0;
      after.Keys == tb.Keys && forall t :: t in after ==> after[t] == AfterReaper(tb[t], now)
  {
  }

  /** Exactly the tasks of these rows, as they are, each once. */
  ghost predicate ListsOnce(listed: seq<Task>, tb: Table, ids: set<TaskId>) {
    && (forall i :: 0 <= i < |listed| ==> listed[i].spec.id in ids && listed[i].spec.id in tb && tb[listed[i].spec.id].task == listed[i])
    && (forall i, j :: 0 <= i < j < |listed| ==> listed[i].spec.id != listed[j].spec.id)
    && (forall t :: t in ids ==> t in tb && tb[t].task in listed)
  }

  /** Queued tasks up to `n`, timed out ones from there on. */
  predicate SplitAt(reaped: seq<Task>, n: nat)
    requires n <= |reaped|
  {
    && (forall i :: 0 <= i < n ==> reaped[i].status == Queued)
    && (forall i :: n <= i < |reaped| ==> reaped[i].status == TimedOut)
  }

  lemma ListNone(tb: Table, ids: set<TaskId>)
    requires ids == {}
    ensures ListsOnce([], tb, ids)
  {
  }

  lemma ListOneMore(listed: seq<Task>, tb: Table, ids: set<TaskId>, t: TaskId)
    requires ListsOnce(listed, tb, ids) && t !in ids && t in tb && tb[t].task.spec.id == t
    ensures ListsOnce(listed + [tb[t].task], tb, ids + {t})
  {
    var more := listed + [tb[t].task];
    assert more[|listed|] in more && forall task :: task in listed ==> task in more;
  }

  lemma ListsCarryOver(listed: seq<Task>, tb: Table, later: Table, ids: set<TaskId>)
    requires ListsOnce(listed, tb, ids) && forall t :: t in ids ==> t in tb && t in later && later[t] == tb[t]
    ensures ListsOnce(listed, later, ids)
  {
  }

  lemma ListsConcat(a: seq<Task>, b: seq<Task>, tb: Table, x: set<TaskId>, y: set<TaskId>)
    requires ListsOnce(a, tb, x) && ListsOnce(b, tb, y) && x !! y
    ensures ListsOnce(a + b, tb, x + y)
  {
    assert forall task :: task in a || task in b ==> task in a + b;
  }

  lemma SplitOf(a: seq<Task>, b: seq<Task>, tb: Table, x: set<TaskId>, y: set<TaskId>)
    requires ListsOnce(a, tb, x) && ListsOnce(b, tb, y)
    requires forall t :: t in x && t in tb ==> tb[t].task.status == Queued
    requires forall t :: t in y && t in tb ==> tb[t].task.status == TimedOut
    ensures SplitAt(a + b, |a|)
  {
  }

  lemma ReapedLists(lease: real, tb: Table, now: real, requeued: seq<Task>, timedOut: seq<Task>)
    requires var middle := Step(lease, tb, ReapRequeue(now)).0;
      && ListsOnce(requeued, middle, set t | t in tb && Requeueable(tb, now, t))
      && ListsOnce(timedOut, Step(lease, middle, ReapTimeOut(now)).0, set t | t in middle && Exhausted(middle, now, t))
    ensures var final := Step(lease, Step(lease, tb, ReapRequeue(now)).0, ReapTimeOut(now)).0;
      ListsOnce(requeued + timedOut, final, set t | t in tb && Expired(tb[t], now))
    ensures SplitAt(requeued + timedOut, |requeued|)
  {
    var middle := Step(lease, tb, ReapRequeue(now)).0;
    var final := Step(lease, middle, ReapTimeOut(now)).0;
    var x, y := set t | t in tb && Requeueable(tb, now, t), set t | t in middle && Exhausted(middle, now, t);
    forall t: TaskId
      ensures RowReaped(lease, tb, now, t)
    {
      ReapedRow(lease, tb, now, t);
    }
    hide Step, Expired, Requeueable, Exhausted, ListsOnce, SplitAt;
    assert x + y == set t | t in tb && Expired(tb[t], now) by {
      forall t: TaskId
        ensures t in x + y <==> t in tb && Expired(tb[t], now)
      {
        assert RowReaped(lease, tb, now, t);
      }
    }
    forall t | t in x
      ensures t in middle && t in final && final[t] == middle[t] && t !in y && final[t].task.status == Queued
    {
      assert RowReaped(lease, tb, now, t);
    }
    forall t | t in y
      ensures t in final && final[t].task.status == TimedOut
    {
      assert RowReaped(lease, tb, now, t);
    }
    hide RowReaped;
    ListsCarryOver(requeued, middle, final, x);
    ListsConcat(requeued, timedOut, final, x, y);
    SplitOf(requeued, timedOut, final, x, y);
  }

  predicate WasExpired(tb: Table, now: real, t: TaskId) {
    t in tb && Expired(tb[t], now)
  }

  /** What the two reaper statements in a row do to one row. */
  ghost predicate RowReaped(lease: real, tb: Table, now: real, t: TaskId) {
    var middle := Step(lease, tb, ReapRequeue(now)).0;
    var final := Step(lease, middle, ReapTimeOut(now)).0;
    && (t in tb <==> t in middle) && (t in tb <==> t in final)
    && (WasExpired(tb, now, t) <==> Requeueable(tb, now, t) || Exhausted(middle, now, t))
    && !(Requeueable(tb, now, t) && Exhausted(middle, now, t))
    && (Requeueable(tb, now, t) ==> t in final && final[t] == middle[t] && final[t].task.status == Queued)
    && (Exhausted(middle, now, t) ==> t in final && final[t].task.status == TimedOut)
  }

  lemma ReapedRow(lease: real, tb: Table, now: real, t: TaskId)
    ensures RowReaped(lease, tb, now, t)
  {
  }
}
