/** The shared table behind PostgresTaskQueue. Every public call is one conditional
    statement, so a call is one atomic step of the table; only the reaper is two. */
module LeaseTable {
  import opened Tasks

  datatype Row = Row(task: Task, lease: Option<real>)

  type Table = map<TaskId, Row>

  const REQUEUED_REASON := "Task lease expired; requeued"
  const EXHAUSTED_REASON := "Task lease expired; attempts exhausted"

  /** Rows are filed under their own id, and the idempotency key is a unique column. */
  ghost predicate ValidTable(tb: Table) {
    && (forall t :: t in tb ==> tb[t].task.spec.id == t)
    && (forall t, u :: t in tb && u in tb && tb[t].task.spec.key.Some? && tb[t].task.spec.key == tb[u].task.spec.key
          ==> t == u)
  }

  // ---------- WHERE clauses ----------

  predicate KeyTaken(tb: Table, key: Option<string>) {
    key.Some? && exists t :: t in tb && tb[t].task.spec.key == key
  }

  predicate Owned(tb: Table, t: TaskId, w: WorkerId) {
    t in tb && tb[t].task.status == Running && tb[t].task.lockedBy == Some(w)
  }

  predicate Claimable(tb: Table, skipped: set<TaskId>, t: TaskId) {
    t in tb && t !in skipped && tb[t].task.status == Queued
  }

  predicate IsNext(tb: Table, skipped: set<TaskId>, t: TaskId) {
    && Claimable(tb, skipped, t)
    && forall u :: u in tb && u != t && Claimable(tb, skipped, u) ==> Before(tb[t].task.spec, tb[u].task.spec)
  }

  predicate Expired(row: Row, now: real) {
    row.task.status == Running && row.lease.Some? && row.lease.value < now
  }

  predicate Requeueable(tb: Table, now: real, t: TaskId) {
    t in tb && Expired(tb[t], now) && tb[t].task.attempts < tb[t].task.spec.maxAttempts
  }

  predicate Exhausted(tb: Table, now: real, t: TaskId) {
    t in tb && Expired(tb[t], now) && tb[t].task.attempts >= tb[t].task.spec.maxAttempts
  }

  // ---------- SET clauses ----------

  /** What one statement does to one row. */
  datatype Effect =
    | Created(spec: TaskSpec)
    | Claimed(worker: WorkerId, now: real)
    | Beat(worker: WorkerId, now: real)
    | Completed(worker: WorkerId, now: real)
    | Failing(worker: WorkerId, reason: string, now: real)
    | Retried(worker: WorkerId, reason: string)
    | Cancelling(reason: string, now: real)
    | Pausing(worker: WorkerId)
    | Resumed
    | Requeued(now: real)
    | Exhausting(now: real)

  function Finish(task: Task, status: TaskStatus, now: real, reason: Option<string>): Row {
    Row(task.(status := status, finishedAt := Some(now), failureReason := reason, lockedBy := None), None)
  }

  function Apply(lease: real, row: Row, e: Effect): Row {
    var task := row.task;
    match e
    case Created(_) => row // an insert: see Advance
    case Claimed(w, now) =>
      Row(task.(status := Running, lockedBy := Some(w), attempts := task.attempts + 1,
                startedAt := Some(now), lastHeartbeatAt := Some(now)), Some(now + lease))
    case Beat(_, now) => Row(task.(lastHeartbeatAt := Some(now)), Some(now + lease))
    case Completed(_, now) => Finish(task, Succeeded, now, None)
    case Failing(_, reason, now) => Finish(task, Failed, now, Some(reason))
    case Retried(_, reason) =>
      Row(task.(status := Queued, lockedBy := None, startedAt := None, lastHeartbeatAt := None,
                finishedAt := None, failureReason := Some(reason)), None)
    case Cancelling(reason, now) => Finish(task, Cancelled, now, Some(reason))
    case Pausing(_) => Row(task.(status := Paused, lockedBy := None), None)
    case Resumed => row.(task := task.(status := Queued))
    case Requeued(_) => // finished_at is the one column `retry` clears and this statement keeps
      Row(task.(status := Queued, lockedBy := None, startedAt := None, lastHeartbeatAt := None,
                failureReason := Some(REQUEUED_REASON)), None)
    case Exhausting(now) => Finish(task, TimedOut, now, Some(EXHAUSTED_REASON))
  }

  // ---------- one statement ----------

  function Write(lease: real, tb: Table, t: TaskId, e: Effect): (Table, Outcome)
    requires t in tb
  {
    var row := Apply(lease, tb[t], e);
    (tb[t := row], Returned(row.task))
  }

  /** `_locked_mutate`: the update, or the error that tells a missing row from a foreign lock. */
  function LockedWrite(lease: real, tb: Table, t: TaskId, w: WorkerId, e: Effect): (Table, Outcome) {
    if Owned(tb, t, w) then Write(lease, tb, t, e)
    else (tb, Raised(if t in tb then NotLocked else UnknownTask))
  }

  ghost function Step(lease: real, tb: Table, op: Op): (Table, Outcome) {
    match op
    case Enqueue(spec) =>
      if KeyTaken(tb, spec.key) then
        var t :| t in tb && tb[t].task.spec.key == spec.key;
        (tb, Returned(tb[t].task))
      else if spec.id in tb then (tb, Raised(StoreFailure))
      else (tb[spec.id := Row(NewTask(spec), None)], Returned(NewTask(spec)))
    case Claim(w, now, skipped) =>
      if exists t :: t in tb && IsNext(tb, skipped, t) then
        var t :| t in tb && IsNext(tb, skipped, t);
        Write(lease, tb, t, Claimed(w, now))
      else (tb, Idle)
    case Heartbeat(t, w, now) => LockedWrite(lease, tb, t, w, Beat(w, now))
    case Complete(t, w, now) => LockedWrite(lease, tb, t, w, Completed(w, now))
    case Fail(t, w, reason, now) => LockedWrite(lease, tb, t, w, Failing(w, reason, now))
    case Retry(t, w, reason) => LockedWrite(lease, tb, t, w, Retried(w, reason))
    case Cancel(t, reason, now) =>
      if t in tb then Write(lease, tb, t, Cancelling(reason, now)) else (tb, Raised(UnknownTask))
    case Pause(t, w) => LockedWrite(lease, tb, t, w, Pausing(w))
    case Resume(t) =>
      if t !in tb then (tb, Raised(UnknownTask))
      else if tb[t].task.status == Paused then Write(lease, tb, t, Resumed)
      else (tb, Raised(NotPaused))
    case ReapRequeue(now) =>
      (map t | t in tb :: if Requeueable(tb, now, t) then Apply(lease, tb[t], Requeued(now)) else tb[t],
       Reaped(set t | t in tb && Requeueable(tb, now, t)))
    case ReapTimeOut(now) =>
      (map t | t in tb :: if Exhausted(tb, now, t) then Apply(lease, tb[t], Exhausting(now)) else tb[t],
       Reaped(set t | t in tb && Exhausted(tb, now, t)))
  }

  ghost function Exec(lease: real, ops: seq<Op>): Table {
    if ops == [] then map[] else Step(lease, Exec(lease, ops[..|ops| - 1]), ops[|ops| - 1]).0
  }

  // ---------- the step seen from one row ----------

  /** The effect that `op`, run on `tb`, has on row `t`; None when the row is not written. */
  ghost function EffectOn(tb: Table, op: Op, t: TaskId): Option<Effect> {
    match op
    case Enqueue(spec) =>
      if t == spec.id && !KeyTaken(tb, spec.key) && t !in tb then Some(Created(spec)) else None
    case Claim(w, now, skipped) => if IsNext(tb, skipped, t) then Some(Claimed(w, now)) else None
    case Heartbeat(u, w, now) => if t == u && Owned(tb, t, w) then Some(Beat(w, now)) else None
    case Complete(u, w, now) => if t == u && Owned(tb, t, w) then Some(Completed(w, now)) else None
    case Fail(u, w, reason, now) => if t == u && Owned(tb, t, w) then Some(Failing(w, reason, now)) else None
    case Retry(u, w, reason) => if t == u && Owned(tb, t, w) then Some(Retried(w, reason)) else None
    case Cancel(u, reason, now) => if t == u && t in tb then Some(Cancelling(reason, now)) else None
    case Pause(u, w) => if t == u && Owned(tb, t, w) then Some(Pausing(w)) else None
    case Resume(u) => if t == u && t in tb && tb[t].task.status == Paused then Some(Resumed) else None
    case ReapRequeue(now) => if Requeueable(tb, now, t) then Some(Requeued(now)) else None
    case ReapTimeOut(now) => if Exhausted(tb, now, t) then Some(Exhausting(now)) else None
  }

  lemma NextIsUnique(tb: Table, skipped: set<TaskId>, t: TaskId, u: TaskId)
    requires ValidTable(tb) && IsNext(tb, skipped, t) && IsNext(tb, skipped, u)
    ensures t == u
  {
    if t != u {
      BeforeTotal(tb[t].task.spec, tb[u].task.spec);
    }
  }

  lemma {:induction false} NextExists(tb: Table, skipped: set<TaskId>, among: set<TaskId>) returns (t: TaskId)
    requires ValidTable(tb) && among != {}
    requires forall u :: u in among ==> u in tb && Claimable(tb, skipped, u)
    ensures t in among && forall u :: u in among && u != t ==> Before(tb[t].task.spec, tb[u].task.spec)
    decreases |among|
  {
    var x :| x in among;
    if among == {x} {
      t := x;
    } else {
      var y := NextExists(tb, skipped, among - {x});
      BeforeTotal(tb[x].task.spec, tb[y].task.spec);
      t := if Before(tb[x].task.spec, tb[y].task.spec) then x else y;
      forall u | u in among && u != t ensures Before(tb[t].task.spec, tb[u].task.spec) {
        if t == x && u != y {
          BeforeTransitive(tb[x].task.spec, tb[y].task.spec, tb[u].task.spec);
        }
      }
    }
  }

  /** A claim is refused only when every queued row is locked by someone else's transaction. */
  lemma ClaimFindsWork(lease: real, tb: Table, w: WorkerId, now: real, skipped: set<TaskId>)
    requires ValidTable(tb)
    ensures Step(lease, tb, Claim(w, now, skipped)).1 == Idle <==> forall t :: t in tb ==> !Claimable(tb, skipped, t)
  {
    var among := set t | t in tb && Claimable(tb, skipped, t);
    if among != {} {
      var t := NextExists(tb, skipped, among);
      assert IsNext(tb, skipped, t);
    } else {
      forall t | t in tb ensures !Claimable(tb, skipped, t) {
        assert t !in among;
      }
    }
  }

  lemma ClaimReturnsNext(lease: real, tb: Table, w: WorkerId, now: real, skipped: set<TaskId>)
    requires ValidTable(tb)
    ensures var (tb', outcome) := Step(lease, tb, Claim(w, now, skipped));
      && (outcome == Idle || outcome.Returned?)
      && (outcome.Returned? ==>
            var t := outcome.task.spec.id;
            IsNext(tb, skipped, t) && t in tb' && tb'[t].task == outcome.task)
      && forall t :: IsNext(tb, skipped, t) ==> outcome.Returned? && outcome.task.spec.id == t
  {
    forall t, u | IsNext(tb, skipped, t) && IsNext(tb, skipped, u) ensures t == u {
      NextIsUnique(tb, skipped, t, u);
    }
  }

  lemma ClaimWritesNext(lease: real, tb: Table, w: WorkerId, now: real, skipped: set<TaskId>, t: TaskId)
    requires ValidTable(tb) && IsNext(tb, skipped, t)
    ensures Step(lease, tb, Claim(w, now, skipped)) == Write(lease, tb, t, Claimed(w, now))
  {
    forall u | IsNext(tb, skipped, u) ensures u == t {
      NextIsUnique(tb, skipped, t, u);
    }
  }

  /** A claim takes the oldest task that it can: no queued task that is not skipped was enqueued
      earlier, and of those enqueued at the same time none has a smaller id. */
  lemma ClaimTakesOldest(lease: real, tb: Table, w: WorkerId, now: real, skipped: set<TaskId>, u: TaskId)
    requires ValidTable(tb)
    requires u in tb && tb[u].task.status == Queued && u !in skipped
    ensures var (tb', outcome) := Step(lease, tb, Claim(w, now, skipped));
      && outcome.Returned? && outcome.task.spec.id in tb
      && (var t := outcome.task.spec.id; var spec := tb[t].task.spec;
          && tb[t].task.status == Queued && t !in skipped && outcome.task.spec == spec
          && spec.enqueuedAt <= tb[u].task.spec.enqueuedAt
          && (spec.enqueuedAt == tb[u].task.spec.enqueuedAt && t != u ==>
                (|t| < |u| && u[..|t|] == t)
                || exists k :: 0 <= k < |t| && k < |u| && t[..k] == u[..k] && t[k] < u[k]))
  {
    ClaimFindsWork(lease, tb, w, now, skipped);
    ClaimReturnsNext(lease, tb, w, now, skipped);
    assert Claimable(tb, skipped, u);
    var t := Step(lease, tb, Claim(w, now, skipped)).1.task.spec.id;
    ClaimWritesNext(lease, tb, w, now, skipped, t);
    TextLessIff(t, u);
    hide Step, TextLess;
  }

  /** A claim in full: which task it takes, and what it makes of it. */
  lemma ClaimMeans(lease: real, tb: Table, w: WorkerId, now: real, skipped: set<TaskId>)
    requires ValidTable(tb)
    ensures var (tb', r) := Step(lease, tb, Claim(w, now, skipped));
      && (r.Returned? || (r == Idle && tb' == tb))
      && (r == Idle <==> forall u :: u in tb && tb[u].task.status == Queued ==> u in skipped)
      && (r.Returned? ==>
            var t := r.task.spec.id;
            && t in tb && t !in skipped && tb[t].task.status == Queued
            && r.task == tb[t].task.(status := Running, lockedBy := Some(w), attempts := tb[t].task.attempts + 1,
                                     startedAt := Some(now), lastHeartbeatAt := Some(now))
            && tb' == tb[t := Row(r.task, Some(now + lease))])
    ensures var r := Step(lease, tb, Claim(w, now, skipped)).1;
      forall u :: r.Returned? && u in tb && tb[u].task.status == Queued && u !in skipped ==>
        (var t := r.task.spec.id;
         && r.task.spec.enqueuedAt <= tb[u].task.spec.enqueuedAt
         && (r.task.spec.enqueuedAt == tb[u].task.spec.enqueuedAt && t != u ==>
               (|t| < |u| && u[..|t|] == t)
               || exists k :: 0 <= k < |t| && k < |u| && t[..k] == u[..k] && t[k] < u[k]))
  {
    ClaimFindsWork(lease, tb, w, now, skipped);
    ClaimReturnsNext(lease, tb, w, now, skipped);
    var r := Step(lease, tb, Claim(w, now, skipped)).1;
    if r.Returned? {
      ClaimWritesNext(lease, tb, w, now, skipped, r.task.spec.id);
      forall u | u in tb && tb[u].task.status == Queued && u !in skipped {
        ClaimTakesOldest(lease, tb, w, now, skipped, u);
      }
    }
    hide Step, IsNext, TextLess;
  }

  function Lookup(tb: Table, t: TaskId): Option<Row> {
    if t in tb then Some(tb[t]) else None
  }

  /** The row after an optional effect. */
  function Advance(lease: real, row: Option<Row>, e: Option<Effect>): Option<Row> {
    if e.None? then row
    else if e.value.Created? then Some(Row(NewTask(e.value.spec), None))
    else if row.None? then None
    else Some(Apply(lease, row.value, e.value))
  }

  /** A step of the table is exactly its effects on the single rows. */
  lemma StepByEffects(lease: real, tb: Table, op: Op, t: TaskId)
    requires ValidTable(tb)
    ensures Lookup(Step(lease, tb, op).0, t) == Advance(lease, Lookup(tb, t), EffectOn(tb, op, t))
  {
    match op
    case Claim(w, now, skipped) =>
      if u :| u in tb && IsNext(tb, skipped, u) {
        forall v, x | IsNext(tb, skipped, v) && IsNext(tb, skipped, x) ensures v == x {
          NextIsUnique(tb, skipped, v, x);
        }
      }
    case _ =>
  }

  /** The row keeps its immutable columns, or was just inserted under a key nobody holds. */
  ghost predicate SpecKept(tb: Table, tb': Table, op: Op, t: TaskId) {
    t in tb' ==>
      if t in tb then tb'[t].task.spec == tb[t].task.spec
      else op.Enqueue? && t == op.spec.id && tb'[t].task.spec == op.spec && !KeyTaken(tb, op.spec.key)
  }

  lemma StepKeepsSpec(lease: real, tb: Table, op: Op, t: TaskId)
    requires ValidTable(tb)
    ensures SpecKept(tb, Step(lease, tb, op).0, op, t)
  {
    StepByEffects(lease, tb, op, t);
  }

  lemma SpecsKeptIsValid(tb: Table, tb': Table, op: Op)
    requires ValidTable(tb)
    requires forall t :: SpecKept(tb, tb', op, t)
    ensures ValidTable(tb')
  {
    forall t | t in tb' ensures tb'[t].task.spec.id == t {
      assert SpecKept(tb, tb', op, t);
    }
    forall t, u | t in tb' && u in tb' && tb'[t].task.spec.key.Some? && tb'[t].task.spec.key == tb'[u].task.spec.key
      ensures t == u
    {
      assert SpecKept(tb, tb', op, t) && SpecKept(tb, tb', op, u);
    }
  }

  /** Ids and idempotency keys stay unique whatever the workers do. */
  lemma StepKeepsValid(lease: real, tb: Table, op: Op)
    requires ValidTable(tb)
    ensures ValidTable(Step(lease, tb, op).0)
  {
    var tb' := Step(lease, tb, op).0;
    forall t ensures SpecKept(tb, tb', op, t) {
      StepKeepsSpec(lease, tb, op, t);
    }
    SpecsKeptIsValid(tb, tb', op);
  }

  lemma {:induction false} ExecIsValid(lease: real, ops: seq<Op>)
    ensures ValidTable(Exec(lease, ops))
  {
    if ops != [] {
      ExecIsValid(lease, ops[..|ops| - 1]);
      StepKeepsValid(lease, Exec(lease, ops[..|ops| - 1]), ops[|ops| - 1]);
    }
  }
}
