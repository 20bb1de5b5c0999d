/** TaskQueue as a state: the task dictionary, the order list, the idempotency index, the
    SQLite mirror if there is one, and the entries written to the audit log. */
module LocalQueue {
  import opened Tasks
  import opened AuditChain

  /** The two SQLite tables. A row of `tasks` has the columns of a task. */
  datatype Mirror = Mirror(rows: map<TaskId, Task>, idem: map<string, TaskId>)

  datatype QueueState = QueueState(
    tasks: map<TaskId, Task>,
    order: seq<TaskId>,
    index: map<string, TaskId>,
    db: Option<Mirror>,
    log: seq<Entry>)

  function EmptyQueue(db: Option<Mirror>): QueueState {
    QueueState(map[], [], map[], db, [])
  }

  // ---------- audit entries ----------

  function OrNull(s: Option<string>): Value {
    if s.Some? then Text(s.value) else Null
  }

  function StatusText(s: TaskStatus): string {
    match s
    case Queued => "queued"
    case Running => "running"
    case Paused => "paused"
    case Cancelled => "cancelled"
    case Succeeded => "succeeded"
    case Failed => "failed"
    case TimedOut => "timed_out"
  }

  function TaskEntry(eventType: string, message: string, t: TaskId): Entry {
    Entry(eventType, message, Some(map["task_id" := Text(t)]))
  }

  function With(e: Entry, key: string, value: Value): Entry {
    if e.payload.Some? then e.(payload := Some(e.payload.value[key := value])) else e
  }

  // ---------- SQLite ----------

  /** INSERT of a new task and, for a truthy key, of its idempotency row. */
  function PersistEnqueue(db: Option<Mirror>, task: Task): Option<Mirror> {
    if db.None? then None
    else Some(Mirror(db.value.rows[task.spec.id := task], Indexed(db.value.idem, task.spec)))
  }

  /** UPDATE of the mutable columns of one row. */
  function PersistUpdate(db: Option<Mirror>, task: Task): Option<Mirror> {
    if db.None? || task.spec.id !in db.value.rows then db
    else Some(db.value.(rows := db.value.rows[task.spec.id := task.(spec := db.value.rows[task.spec.id].spec)]))
  }

  // ---------- one call ----------

  predicate Truthy(key: Option<string>) { key.Some? && key.value != "" }

  function Indexed(index: map<string, TaskId>, spec: TaskSpec): map<string, TaskId> {
    if Truthy(spec.key) then index[spec.key.value := spec.id] else index
  }

  /** Change one task, log it and mirror it. */
  function Put(secretLike: string -> bool, s: QueueState, task: Task, entry: Entry): QueueState {
    s.(tasks := s.tasks[task.spec.id := task],
       db := PersistUpdate(s.db, task),
       log := s.log + [Screened(secretLike, entry)])
  }

  predicate Locked(s: QueueState, t: TaskId, w: WorkerId) {
    t in s.tasks && s.tasks[t].status == Running && s.tasks[t].lockedBy == Some(w)
  }

  /** `_require_task` then `_require_lock`. */
  function LockError(s: QueueState, t: TaskId): Outcome {
    Raised(if t in s.tasks then NotLocked else UnknownTask)
  }

  function FirstQueued(tasks: map<TaskId, Task>, order: seq<TaskId>): Option<TaskId> {
    if order == [] then None
    else if order[0] in tasks && tasks[order[0]].status == Queued then Some(order[0])
    else FirstQueued(tasks, order[1..])
  }

  function ClaimedTask(task: Task, w: WorkerId, now: real): Task {
    task.(status := Running, lockedBy := Some(w), attempts := task.attempts + 1,
          startedAt := Some(now), lastHeartbeatAt := Some(now))
  }

  /** `_finish`: unlike the Postgres statement it leaves failure_reason alone. */
  function FinishedTask(task: Task, status: TaskStatus, now: real): Task {
    task.(status := status, finishedAt := Some(now), lockedBy := None)
  }

  function RetriedTask(task: Task, reason: string): Task {
    task.(status := Queued, lockedBy := None, startedAt := None, lastHeartbeatAt := None,
          finishedAt := None, failureReason := Some(reason))
  }

  function WorkerEntry(eventType: string, message: string, t: TaskId, w: WorkerId): Entry {
    With(TaskEntry(eventType, message, t), "worker_id", Text(w))
  }

  function EnqueuedEntry(spec: TaskSpec): Entry {
    With(With(TaskEntry("task.enqueued", "Task enqueued", spec.id), "plan_id", Text(spec.planId)),
         "idempotency_key", OrNull(spec.key))
  }

  function DeduplicatedEntry(existing: Task, key: Option<string>): Entry {
    With(With(With(TaskEntry("task.deduplicated", "Task idempotency key already exists", existing.spec.id),
                   "plan_id", Text(existing.spec.planId)),
              "idempotency_key", OrNull(key)),
         "status", Text(StatusText(existing.status)))
  }

  function ClaimedEntry(task: Task, w: WorkerId): Entry {
    With(With(WorkerEntry("task.claimed", "Task claimed by worker", task.spec.id, w), "plan_id", Text(task.spec.planId)),
         "attempts", Number(task.attempts))
  }

  function RetriedEntry(task: Task, w: WorkerId, reason: string): Entry {
    With(With(WorkerEntry("task.retry_scheduled", reason, task.spec.id, w), "attempts", Number(task.attempts)),
         "max_attempts", Number(task.spec.maxAttempts))
  }

  function TimedOutEntry(task: Task, reason: string): Entry {
    With(With(TaskEntry("task.timed_out", reason, task.spec.id), "plan_id", Text(task.spec.planId)),
         "attempts", Number(task.attempts))
  }

  /** One call of TaskQueue. The reaper statements are not part of it. */
  function LocalStep(secretLike: string -> bool, s: QueueState, op: Op): (QueueState, Outcome) {
    match op
    case Enqueue(spec) =>
      if Truthy(spec.key) && spec.key.value in s.index && s.index[spec.key.value] in s.tasks then
        var existing := s.tasks[s.index[spec.key.value]];
        (s.(log := s.log + [Screened(secretLike, DeduplicatedEntry(existing, spec.key))]), Returned(existing))
      else
        var task := NewTask(spec);
        (QueueState(s.tasks[spec.id := task], s.order + [spec.id], Indexed(s.index, spec),
                    PersistEnqueue(s.db, task), s.log + [Screened(secretLike, EnqueuedEntry(spec))]),
         Returned(task))
    case Claim(w, now, _) =>
      (match FirstQueued(s.tasks, s.order)
       case None => (s, Idle)
       case Some(t) =>
         if t in s.tasks then
           var task := ClaimedTask(s.tasks[t], w, now);
           (Put(secretLike, s, task, ClaimedEntry(task, w)), Returned(task))
         else (s, Idle))
    case Heartbeat(t, w, now) =>
      if !Locked(s, t, w) then (s, LockError(s, t))
      else
        var task := s.tasks[t].(lastHeartbeatAt := Some(now));
        (Put(secretLike, s, task, WorkerEntry("task.heartbeat", "Task heartbeat recorded", task.spec.id, w)), Returned(task))
    case Complete(t, w, now) =>
      if !Locked(s, t, w) then (s, LockError(s, t))
      else
        var task := FinishedTask(s.tasks[t], Succeeded, now);
        (Put(secretLike, s, task, WorkerEntry("task.completed", "Task completed", task.spec.id, w)), Returned(task))
    case Fail(t, w, reason, now) =>
      if !Locked(s, t, w) then (s, LockError(s, t))
      else
        var task := FinishedTask(s.tasks[t], Failed, now).(failureReason := Some(reason));
        (Put(secretLike, s, task, WorkerEntry("task.failed", reason, task.spec.id, w)), Returned(task))
    case Retry(t, w, reason) =>
      if !Locked(s, t, w) then (s, LockError(s, t))
      else
        var task := RetriedTask(s.tasks[t], reason);
        (Put(secretLike, s, task, RetriedEntry(task, w, reason)), Returned(task))
    case Cancel(t, reason, now) =>
      if t !in s.tasks then (s, Raised(UnknownTask))
      else
        var task := FinishedTask(s.tasks[t], Cancelled, now).(failureReason := Some(reason));
        (Put(secretLike, s, task, TaskEntry("task.cancelled", reason, task.spec.id)), Returned(task))
    case Pause(t, w) =>
      if !Locked(s, t, w) then (s, LockError(s, t))
      else
        var task := s.tasks[t].(status := Paused, lockedBy := None);
        (Put(secretLike, s, task, WorkerEntry("task.paused", "Task paused", task.spec.id, w)), Returned(task))
    case Resume(t) =>
      if t !in s.tasks then (s, Raised(UnknownTask))
      else if s.tasks[t].status != Paused then (s, Raised(NotPaused))
      else
        var task := s.tasks[t].(status := Queued);
        (Put(secretLike, s, task, TaskEntry("task.resumed", "Task resumed", task.spec.id)), Returned(task))
    case ReapRequeue(_) => (s, Idle)
    case ReapTimeOut(_) => (s, Idle)
  }

  lemma ClaimUnfolds(secretLike: string -> bool, s: QueueState, w: WorkerId, now: real)
    ensures LocalStep(secretLike, s, Claim(w, now, {})) ==
      match FirstQueued(s.tasks, s.order)
      case None => (s, Idle)
      case Some(t) =>
        if t !in s.tasks then (s, Idle)
        else
          var task := ClaimedTask(s.tasks[t], w, now);
          (Put(secretLike, s, task, ClaimedEntry(task, w)), Returned(task))
  {
  }

  /** A call of a worker on a task that it holds, or does not hold. */
  lemma HeartbeatUnfolds(secretLike: string -> bool, s: QueueState, t: TaskId, w: WorkerId, now: real)
    ensures LocalStep(secretLike, s, Heartbeat(t, w, now)) ==
      if !Locked(s, t, w) then (s, LockError(s, t))
      else
        var task := s.tasks[t].(lastHeartbeatAt := Some(now));
        (Put(secretLike, s, task, WorkerEntry("task.heartbeat", "Task heartbeat recorded", task.spec.id, w)), Returned(task))
  {
  }

  lemma CompleteUnfolds(secretLike: string -> bool, s: QueueState, t: TaskId, w: WorkerId, now: real)
    ensures LocalStep(secretLike, s, Complete(t, w, now)) ==
      if !Locked(s, t, w) then (s, LockError(s, t))
      else
        var task := FinishedTask(s.tasks[t], Succeeded, now);
        (Put(secretLike, s, task, WorkerEntry("task.completed", "Task completed", task.spec.id, w)), Returned(task))
  {
  }

  lemma FailUnfolds(secretLike: string -> bool, s: QueueState, t: TaskId, w: WorkerId, reason: string, now: real)
    ensures LocalStep(secretLike, s, Fail(t, w, reason, now)) ==
      if !Locked(s, t, w) then (s, LockError(s, t))
      else
        var task := FinishedTask(s.tasks[t], Failed, now).(failureReason := Some(reason));
        (Put(secretLike, s, task, WorkerEntry("task.failed", reason, task.spec.id, w)), Returned(task))
  {
  }

  lemma RetryUnfolds(secretLike: string -> bool, s: QueueState, t: TaskId, w: WorkerId, reason: string)
    ensures LocalStep(secretLike, s, Retry(t, w, reason)) ==
      if !Locked(s, t, w) then (s, LockError(s, t))
      else
        var task := RetriedTask(s.tasks[t], reason);
        (Put(secretLike, s, task, RetriedEntry(task, w, reason)), Returned(task))
  {
  }

  lemma PauseUnfolds(secretLike: string -> bool, s: QueueState, t: TaskId, w: WorkerId)
    ensures LocalStep(secretLike, s, Pause(t, w)) ==
      if !Locked(s, t, w) then (s, LockError(s, t))
      else
        var task := s.tasks[t].(status := Paused, lockedBy := None);
        (Put(secretLike, s, task, WorkerEntry("task.paused", "Task paused", task.spec.id, w)), Returned(task))
  {
  }

  /** A call on a task that is there, or is not. */
  lemma CancelUnfolds(secretLike: string -> bool, s: QueueState, t: TaskId, reason: string, now: real)
    ensures LocalStep(secretLike, s, Cancel(t, reason, now)) ==
      if t !in s.tasks then (s, Raised(UnknownTask))
      else
        var task := FinishedTask(s.tasks[t], Cancelled, now).(failureReason := Some(reason));
        (Put(secretLike, s, task, TaskEntry("task.cancelled", reason, task.spec.id)), Returned(task))
  {
  }

  lemma ResumeUnfolds(secretLike: string -> bool, s: QueueState, t: TaskId)
    ensures LocalStep(secretLike, s, Resume(t)) ==
      if t !in s.tasks then (s, Raised(UnknownTask))
      else if s.tasks[t].status != Paused then (s, Raised(NotPaused))
      else
        var task := s.tasks[t].(status := Queued);
        (Put(secretLike, s, task, TaskEntry("task.resumed", "Task resumed", task.spec.id)), Returned(task))
  {
  }

  // ---------- the watchdog ----------

  const HEARTBEAT_REASON := "Task heartbeat timed out"
  const RUNTIME_REASON := "Task runtime timed out"

  /** `_timeout_reason` */
  function TimeoutReason(task: Task, now: real): Option<string> {
    if task.spec.heartbeatTimeout.Some? && task.lastHeartbeatAt.Some?
       && now - task.lastHeartbeatAt.value > task.spec.heartbeatTimeout.value then Some(HEARTBEAT_REASON)
    else if task.spec.runtimeTimeout.Some? && task.startedAt.Some?
            && now - task.startedAt.value > task.spec.runtimeTimeout.value then Some(RUNTIME_REASON)
    else None
  }

  predicate TimesOut(task: Task, now: real) {
    task.status == Running && TimeoutReason(task, now).Some?
  }

  function WatchOne(secretLike: string -> bool, s: QueueState, t: TaskId, now: real): QueueState {
    if t in s.tasks && TimesOut(s.tasks[t], now) then
      var reason := TimeoutReason(s.tasks[t], now);
      var task := FinishedTask(s.tasks[t], TimedOut, now).(failureReason := reason);
      Put(secretLike, s, task, TimedOutEntry(task, reason.value))
    else s
  }

  /** `Watchdog.check` over the tasks `ids`, in that order. */
  function Watch(secretLike: string -> bool, s: QueueState, ids: seq<TaskId>, now: real): QueueState
    decreases ids
  {
    if ids == [] then s else Watch(secretLike, WatchOne(secretLike, s, ids[0], now), ids[1..], now)
  }

  function WatchedTask(task: Task, now: real): Task {
    if TimesOut(task, now) then FinishedTask(task, TimedOut, now).(failureReason := TimeoutReason(task, now)) else task
  }

  lemma WatchOneTask(secretLike: string -> bool, s: QueueState, t: TaskId, now: real)
    requires WellFormed(s) && t in s.tasks
    ensures var s' := WatchOne(secretLike, s, t, now);
      && s'.tasks == s.tasks[t := WatchedTask(s.tasks[t], now)]
      && s'.order == s.order && s'.index == s.index && WellFormed(s')
  {
  }

  lemma {:induction false} WatchKeepsShape(secretLike: string -> bool, s: QueueState, ids: seq<TaskId>, now: real)
    requires WellFormed(s) && forall u :: u in ids ==> u in s.tasks
    ensures var s' := Watch(secretLike, s, ids, now);
      WellFormed(s') && s'.tasks.Keys == s.tasks.Keys && s'.index == s.index && s'.order == s.order
    decreases ids
  {
    if ids != [] {
      WatchOneTask(secretLike, s, ids[0], now);
      WatchKeepsShape(secretLike, WatchOne(secretLike, s, ids[0], now), ids[1..], now);
    }
  }

  /** What the watchdog does to each task, whatever the order it walks them in. */
  lemma {:induction false} WatchTask(secretLike: string -> bool, s: QueueState, ids: seq<TaskId>, now: real, t: TaskId)
    requires WellFormed(s) && (forall u :: u in ids ==> u in s.tasks) && t in s.tasks
    ensures t in Watch(secretLike, s, ids, now).tasks
    ensures Watch(secretLike, s, ids, now).tasks[t] == if t in ids then WatchedTask(s.tasks[t], now) else s.tasks[t]
    decreases ids
  {
    if ids != [] {
      var s1 := WatchOne(secretLike, s, ids[0], now);
      WatchOneTask(secretLike, s, ids[0], now);
      WatchTask(secretLike, s1, ids[1..], now, t);
      WatchedTwice(s.tasks[t], now);
    }
  }

  /** The list of a check that has `found` some tasks and has `ids` still to look at. */
  function Overdue(secretLike: string -> bool, s: QueueState, ids: seq<TaskId>, now: real, found: seq<TaskId>): seq<TaskId>
    decreases ids
  {
    if ids == [] then found
    else Overdue(secretLike, WatchOne(secretLike, s, ids[0], now), ids[1..], now,
                 if ids[0] in s.tasks && TimesOut(s.tasks[ids[0]], now) then found + [ids[0]] else found)
  }

  /** A check lists exactly the tasks that were running past a limit, none of them twice. */
  lemma {:induction false} OverdueIsExact(
    secretLike: string -> bool, s: QueueState, ids: seq<TaskId>, now: real, found: seq<TaskId>, t: TaskId)
    requires WellFormed(s) && (forall u :: u in ids ==> u in s.tasks) && t in s.tasks
    ensures multiset(Overdue(secretLike, s, ids, now, found))[t]
         == multiset(found)[t] + if t in ids && TimesOut(s.tasks[t], now) then 1 else 0
    decreases ids
  {
    if ids != [] {
      var s1 := WatchOne(secretLike, s, ids[0], now);
      WatchOneTask(secretLike, s, ids[0], now);
      var found1 := if TimesOut(s.tasks[ids[0]], now) then found + [ids[0]] else found;
      OverdueIsExact(secretLike, s1, ids[1..], now, found1, t);
    }
  }

  /** A check, task by task: it times out exactly the running tasks that have been silent for longer
      than their heartbeat timeout or at work for longer than their runtime timeout, lists these, and
      notes the first of the two reasons. */
  lemma CheckIsExact(secretLike: string -> bool, s: QueueState, ids: seq<TaskId>, now: real, t: TaskId)
    requires WellFormed(s) && (forall u :: u in ids ==> u in s.tasks) && t in ids
    ensures var was := s.tasks[t];
      var silent := was.spec.heartbeatTimeout.Some? && was.lastHeartbeatAt.Some?
                    && now - was.lastHeartbeatAt.value > was.spec.heartbeatTimeout.value;
      var long := was.spec.runtimeTimeout.Some? && was.startedAt.Some? && now - was.startedAt.value > was.spec.runtimeTimeout.value;
      var after := Watch(secretLike, s, ids, now).tasks;
      && (t in Overdue(secretLike, s, ids, now, []) <==> was.status == Running && (silent || long))
      && t in after
      && after[t] == if was.status == Running && (silent || long)
                     then was.(status := TimedOut, finishedAt := Some(now), lockedBy := None,
                            failureReason := Some(if silent then "Task heartbeat timed out" else "Task runtime timed out"))
                     else was
  {
    WatchTask(secretLike, s, ids, now, t);
    OverdueIsExact(secretLike, s, ids, now, [], t);
    hide Watch, Overdue;
  }

  lemma WatchUnfolds(secretLike: string -> bool, s: QueueState, ids: seq<TaskId>, i: nat, now: real, found: seq<TaskId>)
    requires i < |ids|
    ensures Watch(secretLike, s, ids[i..], now) == Watch(secretLike, WatchOne(secretLike, s, ids[i], now), ids[i + 1..], now)
    ensures Overdue(secretLike, s, ids[i..], now, found)
         == Overdue(secretLike, WatchOne(secretLike, s, ids[i], now), ids[i + 1..], now,
                    if ids[i] in s.tasks && TimesOut(s.tasks[ids[i]], now) then found + [ids[i]] else found)
  {
    assert ids[i..][0] == ids[i] && ids[i..][1..] == ids[i + 1..];
  }

  /** A task that the watchdog has just seen is not changed by seeing it again. */
  lemma WatchedTwice(task: Task, now: real)
    ensures WatchedTask(WatchedTask(task, now), now) == WatchedTask(task, now)
  {
  }

  // ---------- the runner ----------

  /** How `kernel.run` and the goal it leaves behind can end. */
  datatype KernelOutcome = RunRaised(message: string) | RunEnded(succeeded: bool, goalStatus: string)

  function Log(secretLike: string -> bool, s: QueueState, entry: Entry): QueueState {
    s.(log := s.log + [Screened(secretLike, entry)])
  }

  function IdleEntry(w: WorkerId): Entry {
    Entry("task.runner_idle", "No queued task available", Some(map["worker_id" := Text(w)]))
  }

  function StartedEntry(task: Task, w: WorkerId): Entry {
    With(WorkerEntry("task.runner_started", "Task runner started execution", task.spec.id, w),
         "plan_id", Text(task.spec.planId))
  }

  function EndedEntry(task: Task, w: WorkerId, goalStatus: string): Entry {
    With(With(WorkerEntry("task.runner_finished", "Task runner finished execution", task.spec.id, w),
              "plan_id", Text(task.spec.planId)),
         "goal_status", Text(goalStatus))
  }

  /** The runner's last call on the task it claimed. */
  function Settlement(task: Task, w: WorkerId, now: real, outcome: KernelOutcome): Op {
    if outcome.RunEnded? && outcome.succeeded then Complete(task.spec.id, w, now)
    else
      var reason := if outcome.RunRaised? then "Task execution raised: " + outcome.message
                    else "Goal ended with status " + outcome.goalStatus;
      if task.attempts < task.spec.maxAttempts then Retry(task.spec.id, w, reason)
      else Fail(task.spec.id, w, reason, now)
  }

  /** `TaskRunner.run_next` */
  function RunNext(secretLike: string -> bool, s: QueueState, w: WorkerId, now: real, outcome: KernelOutcome)
    : (QueueState, Outcome)
  {
    var (claimed, got) := LocalStep(secretLike, s, Claim(w, now, {}));
    if !got.Returned? then (Log(secretLike, claimed, IdleEntry(w)), Idle)
    else
      var started := Log(secretLike, claimed, StartedEntry(got.task, w));
      var ended := if outcome.RunEnded? then Log(secretLike, started, EndedEntry(got.task, w, outcome.goalStatus))
                   else started;
      LocalStep(secretLike, ended, Settlement(got.task, w, now, outcome))
  }

  lemma {:induction false} FirstQueuedIsQueued(tasks: map<TaskId, Task>, order: seq<TaskId>)
    ensures FirstQueued(tasks, order) == None <==> forall t :: t in order ==> t !in tasks || tasks[t].status != Queued
    ensures var t := FirstQueued(tasks, order);
      t.Some? ==> t.value in order && t.value in tasks && tasks[t.value].status == Queued
  {
    if order != [] {
      FirstQueuedIsQueued(tasks, order[1..]);
    }
  }

  lemma ClaimTakesFirst(secretLike: string -> bool, s: QueueState, w: WorkerId, now: real)
    requires WellFormed(s)
    ensures var (s', got) := LocalStep(secretLike, s, Claim(w, now, {}));
      match FirstQueued(s.tasks, s.order)
      case None => got == Idle && s' == s
      case Some(t) =>
        && t in s.tasks && s.tasks[t].status == Queued && got == Returned(ClaimedTask(s.tasks[t], w, now))
        && s'.tasks == s.tasks[t := got.task] && got.task.spec.id == t && s'.order == s.order && WellFormed(s')
  {
    FirstQueuedIsQueued(s.tasks, s.order);
  }

  lemma SettlementSettles(secretLike: string -> bool, s: QueueState, t: TaskId, w: WorkerId, now: real, outcome: KernelOutcome)
    requires WellFormed(s) && Locked(s, t, w)
    ensures var (s', got) := LocalStep(secretLike, s, Settlement(s.tasks[t], w, now, outcome));
      && got.Returned? && s'.tasks == s.tasks[t := got.task] && s'.order == s.order && WellFormed(s')
      && got.task.spec == s.tasks[t].spec && got.task.attempts == s.tasks[t].attempts && got.task.lockedBy == None
      && got.task.status == (if outcome.RunEnded? && outcome.succeeded then Succeeded
                             else if s.tasks[t].attempts < s.tasks[t].spec.maxAttempts then Queued else Failed)
  {
  }

  /** The state in which the runner makes its last call. */
  lemma {:induction false} FirstQueuedMeans(tasks: map<TaskId, Task>, order: seq<TaskId>) returns (i: nat)
    ensures match FirstQueued(tasks, order)
      case None => forall j :: 0 <= j < |order| && order[j] in tasks ==> tasks[order[j]].status != Queued
      case Some(t) =>
        && i < |order| && order[i] == t && t in tasks && tasks[t].status == Queued
        && forall j :: 0 <= j < i && order[j] in tasks ==> tasks[order[j]].status != Queued
  {
    i := 0;
    if order != [] && !(order[0] in tasks && tasks[order[0]].status == Queued) {
      var k := FirstQueuedMeans(tasks, order[1..]);
      i := k + 1;
      assert forall j :: 0 < j < |order| ==> order[j] == order[1..][j - 1];
    }
  }

  /** A claim in full: it takes the queued task that comes first in the list, and finds nothing only
      when no task is queued. */
  lemma ClaimMeans(secretLike: string -> bool, s: QueueState, w: WorkerId, now: real) returns (i: nat)
    requires WellFormed(s)
    ensures var (s', r) := LocalStep(secretLike, s, Claim(w, now, {}));
      && (r == Idle || r.Returned?)
      && (r == Idle ==> s' == s && forall u :: u in s.tasks ==> s.tasks[u].status != Queued)
      && (r.Returned? ==>
            && i < |s.order| && s.order[i] in s.tasks && s.tasks[s.order[i]].status == Queued
            && (forall j :: 0 <= j < i && s.order[j] in s.tasks ==> s.tasks[s.order[j]].status != Queued)
            && r.task == s.tasks[s.order[i]].(status := Running, lockedBy := Some(w), attempts := s.tasks[s.order[i]].attempts + 1,
                                              startedAt := Some(now), lastHeartbeatAt := Some(now))
            && s'.tasks == s.tasks[s.order[i] := r.task] && s'.order == s.order && s'.index == s.index)
  {
    ClaimUnfolds(secretLike, s, w, now);
    i := FirstQueuedMeans(s.tasks, s.order);
    if FirstQueued(s.tasks, s.order).None? {
      forall u | u in s.tasks
        ensures s.tasks[u].status != Queued
      {
        var j :| 0 <= j < |s.order| && s.order[j] == u;
      }
    }
    hide LocalStep, FirstQueued, ClaimedEntry, Screened, PersistUpdate;
  }

  lemma TurnUnfolds(secretLike: string -> bool, s: QueueState, w: WorkerId, now: real, outcome: KernelOutcome) returns (ended: QueueState)
    requires WellFormed(s) && FirstQueued(s.tasks, s.order).Some?
    ensures var t := FirstQueued(s.tasks, s.order).value;
      && t in s.tasks && WellFormed(ended) && Locked(ended, t, w) && ended.order == s.order
      && ended.tasks == s.tasks[t := ClaimedTask(s.tasks[t], w, now)] && ended.tasks[t].spec.id == t
      && RunNext(secretLike, s, w, now, outcome) == LocalStep(secretLike, ended, Settlement(ended.tasks[t], w, now, outcome))
  {
    ClaimTakesFirst(secretLike, s, w, now);
    var (claimed, got) := LocalStep(secretLike, s, Claim(w, now, {}));
    hide LocalStep, Settlement, StartedEntry, EndedEntry, FirstQueued;
    var started := Log(secretLike, claimed, StartedEntry(got.task, w));
    ended := if outcome.RunEnded? then Log(secretLike, started, EndedEntry(got.task, w, outcome.goalStatus)) else started;
  }

  lemma Overwritten(tasks: map<TaskId, Task>, t: TaskId, a: Task, b: Task)
    ensures tasks[t := a][t := b] == tasks[t := b]
  {
  }

  lemma IdleTurn(secretLike: string -> bool, s: QueueState, w: WorkerId, now: real, outcome: KernelOutcome)
    requires WellFormed(s) && FirstQueued(s.tasks, s.order) == None
    ensures var (s', got) := RunNext(secretLike, s, w, now, outcome); got == Idle && s'.tasks == s.tasks
  {
    ClaimTakesFirst(secretLike, s, w, now);
    hide LocalStep, IdleEntry, Screened;
  }

  lemma SettledTurn(secretLike: string -> bool, s: QueueState, w: WorkerId, now: real, outcome: KernelOutcome)
    requires WellFormed(s) && FirstQueued(s.tasks, s.order).Some?
    ensures var t := FirstQueued(s.tasks, s.order).value; var (s', got) := RunNext(secretLike, s, w, now, outcome);
      && got.Returned? && t in s.tasks && s'.tasks == s.tasks[t := got.task] && s'.order == s.order && WellFormed(s')
      && got.task.spec == s.tasks[t].spec
      && got.task.attempts == s.tasks[t].attempts + 1 && got.task.lockedBy == None
      && got.task.status == (if outcome.RunEnded? && outcome.succeeded then Succeeded
                             else if got.task.attempts < s.tasks[t].spec.maxAttempts then Queued else Failed)
  {
    var t := FirstQueued(s.tasks, s.order).value;
    var ended := TurnUnfolds(secretLike, s, w, now, outcome);
    hide RunNext, LocalStep, Settlement, WellFormed, FirstQueued, Locked;
    SettlementSettles(secretLike, ended, t, w, now, outcome);
    Overwritten(s.tasks, t, ended.tasks[t], LocalStep(secretLike, ended, Settlement(ended.tasks[t], w, now, outcome)).1.task);
  }

  /** One turn of a runner settles the first queued task for good or re-queues it with an attempt
      left: it is never refused, never leaves the task running and touches no other task. */
  lemma RunNextSettles(secretLike: string -> bool, s: QueueState, w: WorkerId, now: real, outcome: KernelOutcome)
    requires WellFormed(s)
    ensures var (s', got) := RunNext(secretLike, s, w, now, outcome);
      match FirstQueued(s.tasks, s.order)
      case None => got == Idle && s'.tasks == s.tasks
      case Some(t) =>
        && got.Returned? && t in s.tasks && s'.tasks == s.tasks[t := got.task] && s'.order == s.order && WellFormed(s')
        && got.task.spec == s.tasks[t].spec
        && got.task.attempts == s.tasks[t].attempts + 1 && got.task.lockedBy == None
        && got.task.status == (if outcome.RunEnded? && outcome.succeeded then Succeeded
                               else if got.task.attempts < s.tasks[t].spec.maxAttempts then Queued else Failed)
  {
    if FirstQueued(s.tasks, s.order).Some? {
      SettledTurn(secretLike, s, w, now, outcome);
    } else {
      IdleTurn(secretLike, s, w, now, outcome);
    }
    hide RunNext, FirstQueued, WellFormed;
  }

  // ---------- runs ----------

  /** What the process does with its queue: calls, watchdog checks, and the runner's own entries. */
  datatype LocalOp =
    | Call(op: Op)
    | Check(now: real)
    | Note(entry: Entry)

  function LocalNext(secretLike: string -> bool, s: QueueState, lop: LocalOp): QueueState {
    match lop
    case Call(op) => LocalStep(secretLike, s, op).0
    case Check(now) => Watch(secretLike, s, s.order, now)
    case Note(entry) => s.(log := s.log + [Screened(secretLike, entry)])
  }

  function LocalRun(secretLike: string -> bool, db: Option<Mirror>, run: seq<LocalOp>): QueueState {
    if run == [] then EmptyQueue(db)
    else LocalNext(secretLike, LocalRun(secretLike, db, run[..|run| - 1]), run[|run| - 1])
  }

  /** What every call may rely on: tasks are filed under their id and listed once in the order. */
  ghost predicate WellFormed(s: QueueState) {
    && (forall t :: t in s.tasks ==> s.tasks[t].spec.id == t)
    && (forall t :: t in s.order <==> t in s.tasks)
    && (forall k :: k in s.index ==> s.index[k] in s.tasks)
  }
}
