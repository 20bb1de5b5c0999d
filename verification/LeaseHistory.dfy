/** Whole runs of the shared table: any number of workers, callers and reapers, their
    statements interleaved in any order. The history of a task is the list of effects the
    run had on its row, oldest first, and every claim below is about that list. */
module LeaseHistory {
  import opened Tasks
  import opened LeaseTable

  ghost function History(lease: real, ops: seq<Op>, t: TaskId): seq<Effect> {
    if ops == [] then []
    else
      var before := ops[..|ops| - 1];
      match EffectOn(Exec(lease, before), ops[|ops| - 1], t)
      case None => History(lease, before, t)
      case Some(e) => History(lease, before, t) + [e]
  }

  function RowOf(lease: real, h: seq<Effect>): Option<Row> {
    if h == [] then None else Advance(lease, RowOf(lease, h[..|h| - 1]), Some(h[|h| - 1]))
  }

  /** When a statement can have this effect on this row. */
  predicate Enabled(row: Option<Row>, e: Effect) {
    if e.Created? then row.None?
    else
      && row.Some?
      && var task := row.value.task;
         match e
         case Created(_) => true
         case Claimed(_, _) => task.status == Queued
         case Beat(w, _) => task.status == Running && task.lockedBy == Some(w)
         case Completed(w, _) => task.status == Running && task.lockedBy == Some(w)
         case Failing(w, _, _) => task.status == Running && task.lockedBy == Some(w)
         case Retried(w, _) => task.status == Running && task.lockedBy == Some(w)
         case Cancelling(_, _) => true
         case Pausing(w) => task.status == Running && task.lockedBy == Some(w)
         case Resumed => task.status == Paused
         case Requeued(now) => Expired(row.value, now) && task.attempts < task.spec.maxAttempts
         case Exhausting(now) => Expired(row.value, now) && task.attempts >= task.spec.maxAttempts
  }

  predicate Legal(lease: real, h: seq<Effect>) {
    h == [] || (Legal(lease, h[..|h| - 1]) && Enabled(RowOf(lease, h[..|h| - 1]), h[|h| - 1]))
  }

  lemma EffectIsEnabled(tb: Table, op: Op, t: TaskId)
    ensures EffectOn(tb, op, t).Some? ==> Enabled(Lookup(tb, t), EffectOn(tb, op, t).value)
  {
  }

  lemma LegalExtends(lease: real, h: seq<Effect>, e: Effect)
    requires Legal(lease, h) && Enabled(RowOf(lease, h), e)
    ensures Legal(lease, h + [e])
    ensures RowOf(lease, h + [e]) == Advance(lease, RowOf(lease, h), Some(e))
  {
    assert (h + [e])[..|h|] == h;
  }

  /** The row is what its history makes it, and no effect came when it was not enabled. */
  lemma {:induction false} HistoryExplainsRow(lease: real, ops: seq<Op>, t: TaskId)
    ensures Legal(lease, History(lease, ops, t))
    ensures Lookup(Exec(lease, ops), t) == RowOf(lease, History(lease, ops, t))
  {
    if ops != [] {
      var before, op := ops[..|ops| - 1], ops[|ops| - 1];
      var tb := Exec(lease, before);
      HistoryExplainsRow(lease, before, t);
      ExecIsValid(lease, before);
      StepByEffects(lease, tb, op, t);
      var h, e := History(lease, before, t), EffectOn(tb, op, t);
      if e.Some? {
        EffectIsEnabled(tb, op, t);
        LegalExtends(lease, h, e.value);
      }
    }
  }

  // ---------- ownership ----------

  /** The latest claim was by `w`, and since then nothing but heartbeats happened. */
  ghost predicate HeldBy(h: seq<Effect>, w: WorkerId) {
    exists i :: 0 <= i < |h| && h[i].Claimed? && h[i].worker == w && forall j :: i < j < |h| ==> h[j].Beat?
  }

  /** Running, locked and leased are one and the same condition of a row, it means being held,
      and the lease always ends `lease` seconds after the holder's last sign of life. */
  lemma {:induction false} HolderOfLegal(lease: real, h: seq<Effect>, w: WorkerId)
    requires Legal(lease, h) && h != []
    ensures RowOf(lease, h).Some?
    ensures var row := RowOf(lease, h).value;
      && (row.task.status == Running <==> row.task.lockedBy.Some?)
      && (row.task.status == Running <==> row.lease.Some?)
      && (row.task.lockedBy == Some(w) <==> HeldBy(h, w))
      && (row.task.status == Running ==>
            var last := h[|h| - 1]; (last.Claimed? || last.Beat?) && row.lease == Some(last.now + lease))
  {
    var before, e := h[..|h| - 1], h[|h| - 1];
    if before != [] {
      HolderOfLegal(lease, before, w);
      if e.Beat? && HeldBy(before, w) {
        var i :| 0 <= i < |before| && before[i].Claimed? && before[i].worker == w
                 && forall j :: i < j < |before| ==> before[j].Beat?;
        assert h[i] == before[i];
      }
      if e.Beat? && HeldBy(h, w) {
        var i :| 0 <= i < |h| && h[i].Claimed? && h[i].worker == w && forall j :: i < j < |h| ==> h[j].Beat?;
        assert before[i] == h[i] && forall j :: i < j < |before| ==> before[j] == h[j];
      }
    }
    if e.Claimed? && e.worker == w {
      assert h[|h| - 1] == e;
    }
  }

  /** Ownership in every run: a row is running iff it is locked iff it is leased, and it is
      locked by `w` iff `w` made the task's latest claim and no release, reaping or
      cancellation came after it. */
  lemma Ownership(lease: real, ops: seq<Op>, t: TaskId, w: WorkerId)
    ensures t in Exec(lease, ops) <==> History(lease, ops, t) != []
    ensures t in Exec(lease, ops) ==>
      var row := Exec(lease, ops)[t];
      && (row.task.status == Running <==> row.task.lockedBy.Some?)
      && (row.task.status == Running <==> row.lease.Some?)
      && (row.task.lockedBy == Some(w) <==> HeldBy(History(lease, ops, t), w))
  {
    HistoryExplainsRow(lease, ops, t);
    if History(lease, ops, t) != [] {
      HolderOfLegal(lease, History(lease, ops, t), w);
    }
  }

  /** The calls that only the lock holder may make, with their task and their caller. */
  function LockedCall(op: Op): Option<(TaskId, WorkerId)> {
    match op
    case Heartbeat(t, w, _) => Some((t, w))
    case Complete(t, w, _) => Some((t, w))
    case Fail(t, w, _, _) => Some((t, w))
    case Retry(t, w, _) => Some((t, w))
    case Pause(t, w) => Some((t, w))
    case _ => None
  }

  /** In every run, such a call succeeds exactly for the worker that holds the task. A stale
      worker gets NotLocked, an unknown task UnknownTask, and then the table is untouched. */
  lemma OnlyTheHolderActs(lease: real, ops: seq<Op>, op: Op)
    requires LockedCall(op).Some?
    ensures var (t, w) := LockedCall(op).value;
      var (tb', outcome) := Step(lease, Exec(lease, ops), op);
      && (outcome.Returned? <==> HeldBy(History(lease, ops, t), w))
      && (!outcome.Returned? ==>
            tb' == Exec(lease, ops) && outcome == Raised(if History(lease, ops, t) == [] then UnknownTask else NotLocked))
  {
    var (t, w) := LockedCall(op).value;
    Ownership(lease, ops, t, w);
  }

  predicate IsReturn(e: Effect) { e.Retried? || e.Requeued? || e.Resumed? }

  predicate IsFinish(e: Effect) { e.Completed? || e.Failing? || e.Exhausting? }

  lemma {:induction false} ClaimedStaysTaken(lease: real, h: seq<Effect>, i: nat)
    requires Legal(lease, h) && i < |h| && h[i].Claimed?
    requires forall k :: i < k < |h| ==> !IsReturn(h[k])
    ensures RowOf(lease, h).Some? && RowOf(lease, h).value.task.status != Queued
  {
    if i < |h| - 1 {
      var before := h[..|h| - 1];
      assert before[i] == h[i] && forall k :: i < k < |before| ==> before[k] == h[k];
      ClaimedStaysTaken(lease, before, i);
      HolderOfLegal(lease, h, "");
    }
  }

  lemma {:induction false} PrefixIsLegal(lease: real, h: seq<Effect>, n: nat)
    requires Legal(lease, h) && n <= |h|
    ensures Legal(lease, h[..n])
    ensures n < |h| ==> Enabled(RowOf(lease, h[..n]), h[n])
  {
    if n < |h| {
      var before := h[..|h| - 1];
      if n == |h| - 1 {
        assert h[..n] == before;
      } else {
        PrefixIsLegal(lease, before, n);
        assert before[..n] == h[..n] && before[n] == h[n];
      }
    } else {
      assert h[..n] == h;
    }
  }

  /** A task is never claimed twice: between two claims it was retried, requeued or resumed. */
  lemma NoDoubleClaim(lease: real, ops: seq<Op>, t: TaskId, i: nat, j: nat)
    requires var h := History(lease, ops, t); i < j < |h| && h[i].Claimed? && h[j].Claimed?
    ensures exists k :: i < k < j && IsReturn(History(lease, ops, t)[k])
  {
    var h := History(lease, ops, t);
    HistoryExplainsRow(lease, ops, t);
    PrefixIsLegal(lease, h, j);
    var earlier := h[..j];
    if forall k :: i < k < j ==> !IsReturn(earlier[k]) {
      ClaimedStaysTaken(lease, earlier, i);
    } else {
      var k :| i < k < j && IsReturn(earlier[k]);
      assert IsReturn(h[k]);
    }
  }

  lemma {:induction false} FinishedStaysFinished(lease: real, h: seq<Effect>, i: nat)
    requires Legal(lease, h) && i < |h| && (IsFinish(h[i]) || h[i].Cancelling?)
    ensures forall k :: i < k < |h| ==> h[k].Cancelling?
    ensures RowOf(lease, h).Some?
    ensures RowOf(lease, h).value.task.status in {Succeeded, Failed, TimedOut, Cancelled}
  {
    if i < |h| - 1 {
      var before := h[..|h| - 1];
      assert before[i] == h[i];
      FinishedStaysFinished(lease, before, i);
      forall k | i < k < |h| ensures h[k].Cancelling? {
        if k < |h| - 1 {
          assert before[k] == h[k];
        }
      }
    }
  }

  /** A task finishes at most once in any run, so it succeeds at most once: after a completion,
      a failure or a time-out only cancellations reach the row. */
  lemma FinishesAtMostOnce(lease: real, ops: seq<Op>, t: TaskId, i: nat)
    requires i < |History(lease, ops, t)| && IsFinish(History(lease, ops, t)[i])
    ensures forall k :: i < k < |History(lease, ops, t)| ==> History(lease, ops, t)[k].Cancelling?
    ensures forall k :: 0 <= k < |History(lease, ops, t)| && IsFinish(History(lease, ops, t)[k]) ==> k == i
  {
    var h := History(lease, ops, t);
    HistoryExplainsRow(lease, ops, t);
    FinishedStaysFinished(lease, h, i);
    forall k | 0 <= k < i && IsFinish(h[k]) ensures false {
      FinishedStaysFinished(lease, h, k);
    }
  }

  /** A reaper never takes a task from a worker that gave a sign of life within the lease: the
      effect before a reaping is the holder's claim or heartbeat, over `lease` seconds older. */
  lemma ReaperSparesTheLiving(lease: real, ops: seq<Op>, t: TaskId, i: nat)
    requires i < |History(lease, ops, t)|
    requires History(lease, ops, t)[i].Requeued? || History(lease, ops, t)[i].Exhausting?
    ensures var h := History(lease, ops, t);
      && i > 0
      && (h[i - 1].Claimed? || h[i - 1].Beat?)
      && h[i - 1].now + lease < h[i].now
  {
    var h := History(lease, ops, t);
    HistoryExplainsRow(lease, ops, t);
    PrefixIsLegal(lease, h, i);
    HolderOfLegal(lease, h[..i], "");
  }

  // ---------- attempts ----------

  function Claims(h: seq<Effect>): nat {
    if h == [] then 0 else Claims(h[..|h| - 1]) + if h[|h| - 1].Claimed? then 1 else 0
  }

  function Returns(h: seq<Effect>): nat {
    if h == [] then 0 else Returns(h[..|h| - 1]) + if IsReturn(h[|h| - 1]) then 1 else 0
  }

  lemma {:induction false} AttemptsOfLegal(lease: real, h: seq<Effect>)
    requires Legal(lease, h) && h != []
    ensures RowOf(lease, h).Some?
    ensures var task := RowOf(lease, h).value.task;
      && task.attempts == Claims(h)
      && (task.status == Queued ==> Claims(h) == Returns(h))
      && (task.status in {Running, Paused, Succeeded, Failed, TimedOut} ==> Claims(h) == Returns(h) + 1)
      && (task.status == Cancelled ==> Returns(h) <= Claims(h) <= Returns(h) + 1)
  {
    if |h| > 1 {
      AttemptsOfLegal(lease, h[..|h| - 1]);
      HolderOfLegal(lease, h[..|h| - 1], "");
    }
  }

  /** Conservation: in every run, with cancel, pause and direct retry allowed, a task's attempts
      count its claims, and the claims balance the returns to the queue and the current state. */
  lemma AttemptsAreConserved(lease: real, ops: seq<Op>, t: TaskId)
    requires t in Exec(lease, ops)
    ensures var task := Exec(lease, ops)[t].task; var h := History(lease, ops, t);
      && task.attempts == Claims(h)
      && (task.status == Queued ==> Claims(h) == Returns(h))
      && (task.status in {Running, Paused, Succeeded, Failed, TimedOut} ==> Claims(h) == Returns(h) + 1)
      && (task.status == Cancelled ==> Returns(h) <= Claims(h) <= Returns(h) + 1)
  {
    HistoryExplainsRow(lease, ops, t);
    AttemptsOfLegal(lease, History(lease, ops, t));
  }
}
