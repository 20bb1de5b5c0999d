/** TaskQueue, Watchdog and TaskRunner as objects. Tasks are shared mutable objects, as in the
    source: the queue's dictionary, the caller and the watchdog hold the same RuntimeTask. */
module TaskQueues {
  import opened Tasks
  import opened AuditChain
  import opened LocalQueue
  import Sqlite = SqliteMirror

  class RuntimeTask {
    const spec: TaskSpec
    var status: TaskStatus
    var attempts: int
    var lockedBy: Option<WorkerId>
    var startedAt: Option<real>
    var lastHeartbeatAt: Option<real>
    var finishedAt: Option<real>
    var failureReason: Option<string>

    constructor (spec: TaskSpec)
      ensures View() == NewTask(spec)
    {
      this.spec := spec;
      status, attempts, lockedBy := Queued, 0, None;
      startedAt, lastHeartbeatAt, finishedAt, failureReason := None, None, None, None;
    }

    /** A task read back from its row. */
    constructor Stored(row: Task)
      ensures View() == row
    {
      spec, status, attempts, lockedBy := row.spec, row.status, row.attempts, row.lockedBy;
      startedAt, lastHeartbeatAt, finishedAt, failureReason := row.startedAt, row.lastHeartbeatAt, row.finishedAt, row.failureReason;
    }

    function View(): Task
      reads this
    {
      Task(spec, status, attempts, lockedBy, startedAt, lastHeartbeatAt, finishedAt, failureReason)
    }
  }

  // ---------- what the calls do to a task object ----------

  method SetClaimed(task: RuntimeTask, worker: WorkerId, now: real)
    modifies task
    ensures task.View() == ClaimedTask(old(task.View()), worker, now)
  {
    task.status := Running;
    task.lockedBy := Some(worker);
    task.attempts := task.attempts + 1;
    task.startedAt := Some(now);
    task.lastHeartbeatAt := Some(now);
  }

  /** `_finish` */
  method SetFinished(task: RuntimeTask, status: TaskStatus, now: real)
    modifies task
    ensures task.View() == FinishedTask(old(task.View()), status, now)
  {
    task.status := status;
    task.finishedAt := Some(now);
    task.lockedBy := None;
  }

  method SetFinishedFor(task: RuntimeTask, status: TaskStatus, reason: string, now: real)
    modifies task
    ensures task.View() == FinishedTask(old(task.View()), status, now).(failureReason := Some(reason))
  {
    SetFinished(task, status, now);
    task.failureReason := Some(reason);
  }

  method SetRetried(task: RuntimeTask, reason: string)
    modifies task
    ensures task.View() == RetriedTask(old(task.View()), reason)
  {
    task.status := Queued;
    task.lockedBy := None;
    task.startedAt := None;
    task.lastHeartbeatAt := None;
    task.finishedAt := None;
    task.failureReason := Some(reason);
  }

  method SetPaused(task: RuntimeTask)
    modifies task
    ensures task.View() == old(task.View()).(status := Paused, lockedBy := None)
  {
    task.status := Paused;
    task.lockedBy := None;
  }

  /** What a call hands back: the task object, nothing, or an exception. */
  datatype Reply = Got(task: RuntimeTask) | Nothing | Threw(error: QueueError)

  class TaskQueue {
    const auditLog: AuditLog
    var tasks: map<TaskId, RuntimeTask>
    var order: seq<TaskId>
    var idempotencyIndex: map<string, TaskId>
    var db: Option<Mirror>

    ghost predicate Valid()
      reads this, tasks.Values, auditLog
    {
      && auditLog.Valid()
      && (forall t :: t in tasks ==> tasks[t].spec.id == t)
      && (forall t :: t in order <==> t in tasks)
      && (forall k :: k in idempotencyIndex ==> idempotencyIndex[k] in tasks)
    }

    ghost function State(): QueueState
      reads this, tasks.Values, auditLog
    {
      QueueState(map t | t in tasks :: tasks[t].View(), order, idempotencyIndex, db, auditLog.Entries())
    }

    /** The reply shows the outcome that the specification gives. */
    ghost predicate Shows(r: Reply, outcome: Outcome)
      reads this, tasks.Values
    {
      match outcome
      case Returned(task) => r.Got? && task.spec.id in tasks && r.task == tasks[task.spec.id] && r.task.View() == task
      case Idle => r == Nothing
      case Raised(error) => r == Threw(error)
      case Reaped(_) => false
    }

    constructor (auditLog: AuditLog, persistent: bool)
      requires auditLog.Valid()
      ensures Valid() && this.auditLog == auditLog
      ensures tasks == map[] && order == [] && idempotencyIndex == map[]
      ensures db == if persistent then Some(Mirror(map[], map[])) else None
    {
      this.auditLog := auditLog;
      tasks, order, idempotencyIndex := map[], [], map[];
      db := if persistent then Some(Mirror(map[], map[])) else None;
    }

    /** Open a database whose SELECT returns `rows` and whose idempotency table names them. */
    constructor Reopen(auditLog: AuditLog, rows: seq<Task>, db: Mirror, now: real)
      requires auditLog.Valid()
      requires forall k :: k in db.idem ==> Sqlite.Lists(rows, db.idem[k])
      ensures Valid() && this.auditLog == auditLog && Views() == Sqlite.Reload(rows, db, now).tasks
      ensures order == Sqlite.Reload(rows, db, now).order && idempotencyIndex == db.idem && this.db == Some(db)
      ensures forall t :: t in tasks ==> fresh(tasks[t])
    {
      this.auditLog := auditLog;
      tasks, order, idempotencyIndex := map[], [], map[];
      this.db := Some(db);
      new;
      LoadAll(rows, db, now);
    }

    method LoadAll(rows: seq<Task>, db: Mirror, now: real)
      requires auditLog.Valid() && tasks == map[] && order == [] && forall k :: k in db.idem ==> Sqlite.Lists(rows, db.idem[k])
      modifies this`tasks, this`order, this`idempotencyIndex
      ensures Valid() && Views() == Sqlite.Reload(rows, db, now).tasks
      ensures order == Sqlite.Reload(rows, db, now).order && idempotencyIndex == db.idem
      ensures forall t :: t in tasks ==> fresh(tasks[t])
    {
      hide Sqlite.LoadedTasks, Sqlite.Ids, Sqlite.Lists;
      LoadTasks(rows, now);
      LoadedIsClosed(rows, db, now);
      assert Views().Keys == tasks.Keys;
      idempotencyIndex := db.idem;
    }

    static lemma LoadedIsClosed(rows: seq<Task>, db: Mirror, now: real)
      requires forall k :: k in db.idem ==> Sqlite.Lists(rows, db.idem[k])
      ensures forall t :: t in Sqlite.Ids(rows) <==> t in Sqlite.LoadedTasks(rows, now)
      ensures forall k :: k in db.idem ==> db.idem[k] in Sqlite.LoadedTasks(rows, now)
    {
      forall t
        ensures t in Sqlite.Ids(rows) <==> t in Sqlite.LoadedTasks(rows, now)
      {
        Sqlite.LoadedKeys(rows, now, t);
      }
      forall k | k in db.idem
        ensures db.idem[k] in Sqlite.LoadedTasks(rows, now)
      {
        Sqlite.LoadedKeys(rows, now, db.idem[k]);
      }
    }

    ghost function Views(): map<TaskId, Task>
      reads this, tasks.Values
    {
      map t | t in tasks :: tasks[t].View()
    }

    method LoadTask(row: Task)
      requires forall t :: t in tasks ==> tasks[t].spec.id == t
      modifies this`tasks, this`order
      ensures Views() == old(Views())[row.spec.id := row] && order == old(order) + [row.spec.id]
      ensures forall t :: t in tasks ==> (if t == row.spec.id then fresh(tasks[t]) else t in old(tasks) && tasks[t] == old(tasks)[t])
      ensures forall t :: t in tasks ==> tasks[t].spec.id == t
    {
      var task := new RuntimeTask.Stored(row);
      tasks := tasks[row.spec.id := task];
      order := order + [row.spec.id];
    }

    method LoadTasks(rows: seq<Task>, now: real)
      requires tasks == map[] && order == []
      modifies this`tasks, this`order
      ensures Views() == Sqlite.LoadedTasks(rows, now) && order == Sqlite.Ids(rows)
      ensures forall t :: t in tasks ==> fresh(tasks[t]) && tasks[t].spec.id == t
    {
      for i := 0 to |rows|
        invariant order == Sqlite.Ids(rows[..i]) && Views() == Sqlite.LoadedTasks(rows[..i], now)
        invariant forall t :: t in tasks ==> fresh(tasks[t]) && tasks[t].spec.id == t
      {
        assert rows[..i + 1][..i] == rows[..i];
        LoadTask(Sqlite.LoadedTask(rows[i], now));
      }
      assert rows[..|rows|] == rows;
    }

    method PersistUpdate(task: RuntimeTask)
      modifies this`db
      ensures db == LocalQueue.PersistUpdate(old(db), task.View())
    {
      if db.Some? && task.spec.id in db.value.rows {
        db := Some(db.value.(rows := db.value.rows[task.spec.id := task.View().(spec := db.value.rows[task.spec.id].spec)]));
      }
    }

    method LogAndPersist(task: RuntimeTask, entry: Entry, ghost before: QueueState)
      requires Valid() && task.spec.id in tasks && tasks[task.spec.id] == task
      requires before.tasks.Keys == tasks.Keys
      requires forall t :: t in tasks && t != task.spec.id ==> before.tasks[t] == tasks[t].View()
      requires before == QueueState(before.tasks, order, idempotencyIndex, db, auditLog.Entries())
      modifies this`db, auditLog
      ensures Valid() && State() == Put(auditLog.secretLike, before, task.View(), entry)
      ensures forall t :: t in tasks ==> tasks[t].View() == old(tasks[t].View())
    {
      auditLog.Record(entry);
      PersistUpdate(task);
      assert State().tasks == before.tasks[task.spec.id := task.View()];
    }

    method Append(task: RuntimeTask)
      requires Valid() && task.spec.id !in tasks
      modifies this`tasks, this`order
      ensures Valid() && tasks == old(tasks)[task.spec.id := task] && order == old(order) + [task.spec.id]
      ensures Views() == old(Views())[task.spec.id := task.View()]
    {
      tasks := tasks[task.spec.id := task];
      order := order + [task.spec.id];
      assert forall t :: t in order <==> t in old(order) || t == task.spec.id;
    }

    /** File a new task object in the dictionary, the order and the index. */
    method Register(task: RuntimeTask)
      requires Valid() && task.spec.id !in tasks
      modifies this`tasks, this`order, this`idempotencyIndex
      ensures Valid() && tasks == old(tasks)[task.spec.id := task] && order == old(order) + [task.spec.id]
      ensures idempotencyIndex == Indexed(old(idempotencyIndex), task.spec)
      ensures Views() == old(Views())[task.spec.id := task.View()]
    {
      Append(task);
      if Truthy(task.spec.key) {
        idempotencyIndex := idempotencyIndex[task.spec.key.value := task.spec.id];
      }
    }

    method PersistEnqueue(task: RuntimeTask)
      modifies this`db
      ensures db == LocalQueue.PersistEnqueue(old(db), task.View())
    {
      if db.Some? {
        var idem := db.value.idem;
        if Truthy(task.spec.key) {
          idem := idem[task.spec.key.value := task.spec.id];
        }
        db := Some(Mirror(db.value.rows[task.spec.id := task.View()], idem));
      }
    }

    method LogAndInsert(task: RuntimeTask)
      requires Valid() && task.spec.id in tasks
      modifies this`db, auditLog
      ensures Valid() && Views() == old(Views())
      ensures db == LocalQueue.PersistEnqueue(old(db), task.View())
      ensures auditLog.Entries() == old(auditLog.Entries()) + [Screened(auditLog.secretLike, EnqueuedEntry(task.spec))]
    {
      auditLog.Record(EnqueuedEntry(task.spec));
      PersistEnqueue(task);
    }

    method Admit(spec: TaskSpec) returns (task: RuntimeTask)
      requires Valid() && spec.id !in tasks
      modifies this, auditLog
      ensures Valid() && fresh(task) && task.View() == NewTask(spec)
      ensures tasks == old(tasks)[spec.id := task]
      ensures Views() == old(Views())[spec.id := NewTask(spec)]
      ensures order == old(order) + [spec.id] && idempotencyIndex == Indexed(old(idempotencyIndex), spec)
      ensures db == LocalQueue.PersistEnqueue(old(db), NewTask(spec))
      ensures auditLog.Entries() == old(auditLog.Entries()) + [Screened(auditLog.secretLike, EnqueuedEntry(spec))]
    {
      task := new RuntimeTask(spec);
      Register(task);
      LogAndInsert(task);
    }

    method Enqueue(spec: TaskSpec) returns (r: Reply)
      requires Valid() && spec.id !in tasks // uuid4 gives a fresh id
      modifies this, auditLog
      ensures Valid()
      ensures var (s, outcome) := LocalStep(auditLog.secretLike, old(State()), Op.Enqueue(spec));
        State() == s && Shows(r, outcome)
      ensures forall t :: t in old(tasks) ==> t in tasks && tasks[t] == old(tasks)[t]
      ensures forall t :: t in tasks && t !in old(tasks) ==> fresh(tasks[t])
      ensures if spec.key != None && spec.key != Some("") && spec.key.value in old(idempotencyIndex)
              then r == Got(old(tasks[idempotencyIndex[spec.key.value]])) && tasks == old(tasks) && order == old(order)
                   && idempotencyIndex == old(idempotencyIndex)
              else r.Got? && fresh(r.task) && r.task.View() == Task(spec, Queued, 0, None, None, None, None, None)
                   && tasks == old(tasks)[spec.id := r.task] && order == old(order) + [spec.id]
                   && idempotencyIndex == (if spec.key != None && spec.key != Some("")
                                           then old(idempotencyIndex)[spec.key.value := spec.id] else old(idempotencyIndex))
    {
      if Truthy(spec.key) && spec.key.value in idempotencyIndex {
        var existing := tasks[idempotencyIndex[spec.key.value]];
        auditLog.Record(DeduplicatedEntry(existing.View(), spec.key));
        r := Got(existing);
      } else {
        assert State().tasks == Views();
        var task := Admit(spec);
        assert State().tasks == Views();
        r := Got(task);
      }
    }

    method Take(task: RuntimeTask, worker: WorkerId, now: real)
      requires Valid() && task.spec.id in tasks && tasks[task.spec.id] == task
      modifies this`db, auditLog, task
      ensures Valid() && task.View() == ClaimedTask(old(task.View()), worker, now)
      ensures State() == Put(auditLog.secretLike, old(State()), task.View(), ClaimedEntry(task.View(), worker))
    {
      hide WorkerEntry, RetriedEntry, TaskEntry, LocalQueue.ClaimedEntry, TimedOutEntry, Screened, LocalQueue.PersistUpdate, FirstQueued;
      ghost var before := State();
      SetClaimed(task, worker, now);
      LogAndPersist(task, ClaimedEntry(task.View(), worker), before);
    }

    /** The first queued task of the list, if any. */
    method FindQueued() returns (task: RuntimeTask?)
      requires Valid()
      ensures FirstQueued(Views(), order) == if task == null then None else Some(task.spec.id)
      ensures task != null ==> task.spec.id in tasks && tasks[task.spec.id] == task
    {
      for i := 0 to |order|
        invariant FirstQueued(Views(), order) == FirstQueued(Views(), order[i..])
      {
        assert order[i..][0] == order[i] && order[i..][1..] == order[i + 1..];
        assert order[i] in order;
        task := tasks[order[i]];
        if task.status == Queued {
          return task;
        }
      }
      return null;
    }

    method Claim(worker: WorkerId, now: real) returns (r: Reply)
      requires Valid()
      modifies this`db, auditLog, tasks.Values
      ensures Valid()
      ensures var (s, outcome) := LocalStep(auditLog.secretLike, old(State()), Op.Claim(worker, now, {}));
        State() == s && Shows(r, outcome)
    {
      ClaimUnfolds(auditLog.secretLike, State(), worker, now);
      hide LocalStep, FirstQueued, LocalQueue.ClaimedEntry, Screened, LocalQueue.PersistUpdate;
      assert State().tasks == Views();
      var task := FindQueued();
      if task == null {
        return Nothing;
      }
      Take(task, worker, now);
      return Got(task);
    }

    method RequireLock(t: TaskId, worker: WorkerId) returns (error: Option<QueueError>)
      requires Valid()
      ensures error.None? <==> Locked(State(), t, worker)
      ensures error.Some? ==> Raised(error.value) == LockError(State(), t)
    {
      if t !in tasks {
        return Some(UnknownTask);
      }
      var task := tasks[t];
      if task.status != Running || task.lockedBy != Some(worker) {
        return Some(NotLocked);
      }
      return None;
    }

    method Heartbeat(t: TaskId, worker: WorkerId, now: real) returns (r: Reply)
      requires Valid()
      modifies this`db, auditLog, tasks.Values
      ensures Valid()
      ensures var (s, outcome) := LocalStep(auditLog.secretLike, old(State()), Op.Heartbeat(t, worker, now));
        State() == s && Shows(r, outcome)
      ensures r.Got? <==> t in tasks && old(tasks[t].status) == Running && old(tasks[t].lockedBy) == Some(worker)
      ensures !r.Got? ==> r == Threw(if t in tasks then NotLocked else UnknownTask)
      ensures r.Got? ==> r.task == tasks[t] && r.task.View() == old(tasks[t].View()).(lastHeartbeatAt := Some(now))
      ensures forall u :: u in tasks && (u != t || !r.Got?) ==> tasks[u].View() == old(tasks[u].View())
    {
      hide WorkerEntry, RetriedEntry, TaskEntry, LocalQueue.ClaimedEntry, TimedOutEntry, Screened, LocalQueue.PersistUpdate, FirstQueued;
      HeartbeatUnfolds(auditLog.secretLike, State(), t, worker, now);
      hide LocalStep, FinishedTask, RetriedTask, LockError, Put;
      ghost var before := State();
      var error := RequireLock(t, worker);
      if error.Some? {
        return Threw(error.value);
      }
      var task := tasks[t];
      task.lastHeartbeatAt := Some(now);
      LogAndPersist(task, WorkerEntry("task.heartbeat", "Task heartbeat recorded", task.spec.id, worker), before);
      return Got(task);
    }

    method Complete(t: TaskId, worker: WorkerId, now: real) returns (r: Reply)
      requires Valid()
      modifies this`db, auditLog, tasks.Values
      ensures Valid()
      ensures var (s, outcome) := LocalStep(auditLog.secretLike, old(State()), Op.Complete(t, worker, now));
        State() == s && Shows(r, outcome)
      ensures r.Got? <==> t in tasks && old(tasks[t].status) == Running && old(tasks[t].lockedBy) == Some(worker)
      ensures !r.Got? ==> r == Threw(if t in tasks then NotLocked else UnknownTask)
      ensures r.Got? ==> r.task == tasks[t] && r.task.View() == old(tasks[t].View()).(status := Succeeded, finishedAt := Some(now), lockedBy := None)
      ensures forall u :: u in tasks && (u != t || !r.Got?) ==> tasks[u].View() == old(tasks[u].View())
    {
      hide WorkerEntry, RetriedEntry, TaskEntry, LocalQueue.ClaimedEntry, TimedOutEntry, Screened, LocalQueue.PersistUpdate, FirstQueued;
      CompleteUnfolds(auditLog.secretLike, State(), t, worker, now);
      hide LocalStep, FinishedTask, RetriedTask, LockError, Put;
      ghost var before := State();
      var error := RequireLock(t, worker);
      if error.Some? {
        return Threw(error.value);
      }
      var task := tasks[t];
      SetFinished(task, Succeeded, now);
      LogAndPersist(task, WorkerEntry("task.completed", "Task completed", task.spec.id, worker), before);
      return Got(task);
    }

    method Fail(t: TaskId, worker: WorkerId, reason: string, now: real) returns (r: Reply)
      requires Valid()
      modifies this`db, auditLog, tasks.Values
      ensures Valid()
      ensures var (s, outcome) := LocalStep(auditLog.secretLike, old(State()), Op.Fail(t, worker, reason, now));
        State() == s && Shows(r, outcome)
      ensures r.Got? <==> t in tasks && old(tasks[t].status) == Running && old(tasks[t].lockedBy) == Some(worker)
      ensures !r.Got? ==> r == Threw(if t in tasks then NotLocked else UnknownTask)
      ensures r.Got? ==> r.task == tasks[t] && r.task.View() == old(tasks[t].View()).(status := Failed, finishedAt := Some(now), lockedBy := None,
          failureReason := Some(reason))
      ensures forall u :: u in tasks && (u != t || !r.Got?) ==> tasks[u].View() == old(tasks[u].View())
    {
      hide WorkerEntry, RetriedEntry, TaskEntry, LocalQueue.ClaimedEntry, TimedOutEntry, Screened, LocalQueue.PersistUpdate, FirstQueued;
      FailUnfolds(auditLog.secretLike, State(), t, worker, reason, now);
      hide LocalStep, FinishedTask, RetriedTask, LockError, Put;
      ghost var before := State();
      var error := RequireLock(t, worker);
      if error.Some? {
        return Threw(error.value);
      }
      var task := tasks[t];
      SetFinishedFor(task, Failed, reason, now);
      LogAndPersist(task, WorkerEntry("task.failed", reason, task.spec.id, worker), before);
      return Got(task);
    }

    method Retry(t: TaskId, worker: WorkerId, reason: string) returns (r: Reply)
      requires Valid()
      modifies this`db, auditLog, tasks.Values
      ensures Valid()
      ensures var (s, outcome) := LocalStep(auditLog.secretLike, old(State()), Op.Retry(t, worker, reason));
        State() == s && Shows(r, outcome)
      ensures r.Got? <==> t in tasks && old(tasks[t].status) == Running && old(tasks[t].lockedBy) == Some(worker)
      ensures !r.Got? ==> r == Threw(if t in tasks then NotLocked else UnknownTask)
      ensures r.Got? ==> r.task == tasks[t] && r.task.View() == old(tasks[t].View()).(status := Queued, lockedBy := None, startedAt := None,
          lastHeartbeatAt := None, finishedAt := None, failureReason := Some(reason))
      ensures forall u :: u in tasks && (u != t || !r.Got?) ==> tasks[u].View() == old(tasks[u].View())
    {
      hide WorkerEntry, RetriedEntry, TaskEntry, LocalQueue.ClaimedEntry, TimedOutEntry, Screened, LocalQueue.PersistUpdate, FirstQueued;
      RetryUnfolds(auditLog.secretLike, State(), t, worker, reason);
      hide LocalStep, FinishedTask, RetriedTask, LockError, Put;
      ghost var before := State();
      var error := RequireLock(t, worker);
      if error.Some? {
        return Threw(error.value);
      }
      var task := tasks[t];
      SetRetried(task, reason);
      LogAndPersist(task, RetriedEntry(task.View(), worker, reason), before);
      return Got(task);
    }

    method Cancel(t: TaskId, reason: string, now: real) returns (r: Reply)
      requires Valid()
      modifies this`db, auditLog, tasks.Values
      ensures Valid()
      ensures var (s, outcome) := LocalStep(auditLog.secretLike, old(State()), Op.Cancel(t, reason, now));
        State() == s && Shows(r, outcome)
      ensures if t !in tasks then r == Threw(UnknownTask)
              else r == Got(tasks[t]) && tasks[t].View() == old(tasks[t].View()).(status := Cancelled, finishedAt := Some(now),
                     failureReason := Some(reason), lockedBy := None)
      ensures forall u :: u in tasks && (u != t || !r.Got?) ==> tasks[u].View() == old(tasks[u].View())
    {
      hide WorkerEntry, RetriedEntry, TaskEntry, LocalQueue.ClaimedEntry, TimedOutEntry, Screened, LocalQueue.PersistUpdate, FirstQueued;
      CancelUnfolds(auditLog.secretLike, State(), t, reason, now);
      hide LocalStep, FinishedTask;
      ghost var before := State();
      if t !in tasks {
        return Threw(UnknownTask);
      }
      var task := tasks[t];
      assert before.tasks.Keys == tasks.Keys && before.tasks[t] == task.View() && task.spec.id == t;
      SetFinishedFor(task, Cancelled, reason, now);
      LogAndPersist(task, TaskEntry("task.cancelled", reason, task.spec.id), before);
      return Got(task);
    }

    method Pause(t: TaskId, worker: WorkerId) returns (r: Reply)
      requires Valid()
      modifies this`db, auditLog, tasks.Values
      ensures Valid()
      ensures var (s, outcome) := LocalStep(auditLog.secretLike, old(State()), Op.Pause(t, worker));
        State() == s && Shows(r, outcome)
      ensures r.Got? <==> t in tasks && old(tasks[t].status) == Running && old(tasks[t].lockedBy) == Some(worker)
      ensures !r.Got? ==> r == Threw(if t in tasks then NotLocked else UnknownTask)
      ensures r.Got? ==> r.task == tasks[t] && r.task.View() == old(tasks[t].View()).(status := Paused, lockedBy := None)
      ensures forall u :: u in tasks && (u != t || !r.Got?) ==> tasks[u].View() == old(tasks[u].View())
    {
      hide WorkerEntry, RetriedEntry, TaskEntry, LocalQueue.ClaimedEntry, TimedOutEntry, Screened, LocalQueue.PersistUpdate, FirstQueued;
      PauseUnfolds(auditLog.secretLike, State(), t, worker);
      hide LocalStep, FinishedTask, RetriedTask, LockError, Put;
      ghost var before := State();
      var error := RequireLock(t, worker);
      if error.Some? {
        return Threw(error.value);
      }
      var task := tasks[t];
      SetPaused(task);
      LogAndPersist(task, WorkerEntry("task.paused", "Task paused", task.spec.id, worker), before);
      return Got(task);
    }

    method Resume(t: TaskId) returns (r: Reply)
      requires Valid()
      modifies this`db, auditLog, tasks.Values
      ensures Valid()
      ensures var (s, outcome) := LocalStep(auditLog.secretLike, old(State()), Op.Resume(t));
        State() == s && Shows(r, outcome)
      ensures r.Got? <==> t in tasks && old(tasks[t].status) == Paused
      ensures !r.Got? ==> r == Threw(if t in tasks then NotPaused else UnknownTask)
      ensures r.Got? ==> r.task == tasks[t] && r.task.View() == old(tasks[t].View()).(status := Queued)
      ensures forall u :: u in tasks && (u != t || !r.Got?) ==> tasks[u].View() == old(tasks[u].View())
    {
      hide WorkerEntry, RetriedEntry, TaskEntry, LocalQueue.ClaimedEntry, TimedOutEntry, Screened, LocalQueue.PersistUpdate, FirstQueued;
      ResumeUnfolds(auditLog.secretLike, State(), t);
      hide LocalStep;
      ghost var before := State();
      if t !in tasks {
        return Threw(UnknownTask);
      }
      var task := tasks[t];
      if task.status != Paused {
        return Threw(NotPaused);
      }
      task.status := Queued;
      LogAndPersist(task, TaskEntry("task.resumed", "Task resumed", task.spec.id), before);
      return Got(task);
    }
  }

  class Watchdog {
    const queue: TaskQueue

    constructor (queue: TaskQueue)
      ensures this.queue == queue
    {
      this.queue := queue;
    }

    method Expire(task: RuntimeTask, reason: string, now: real)
      requires queue.Valid() && task.spec.id in queue.tasks && queue.tasks[task.spec.id] == task
      modifies queue`db, queue.auditLog, task
      ensures queue.Valid()
      ensures task.View() == FinishedTask(old(task.View()), TimedOut, now).(failureReason := Some(reason))
      ensures queue.State() == Put(queue.auditLog.secretLike, old(queue.State()), task.View(), TimedOutEntry(task.View(), reason))
    {
      ghost var before := queue.State();
      SetFinishedFor(task, TimedOut, reason, now);
      queue.LogAndPersist(task, TimedOutEntry(task.View(), reason), before);
    }

    method CheckOne(task: RuntimeTask, now: real) returns (expired: bool)
      requires queue.Valid() && task.spec.id in queue.tasks && queue.tasks[task.spec.id] == task
      modifies queue`db, queue.auditLog, task
      ensures queue.Valid() && expired == old(TimesOut(task.View(), now))
      ensures task.View() == WatchedTask(old(task.View()), now)
      ensures queue.State() == WatchOne(queue.auditLog.secretLike, old(queue.State()), task.spec.id, now)
    {
      if task.status != Running {
        return false;
      }
      var reason := TimeoutReason(task.View(), now);
      if reason.None? {
        return false;
      }
      Expire(task, reason.value, now);
      return true;
    }

    method Check(now: real) returns (timedOut: seq<RuntimeTask>)
      requires queue.Valid()
      modifies queue`db, queue.auditLog, queue.tasks.Values
      ensures queue.Valid()
      ensures queue.State() == Watch(queue.auditLog.secretLike, old(queue.State()), queue.order, now)
      ensures Names(timedOut) == Overdue(queue.auditLog.secretLike, old(queue.State()), queue.order, now, [])
      ensures forall task :: task in timedOut ==> task in queue.tasks.Values
      ensures forall t :: t in queue.tasks ==>
        (var was := old(queue.tasks[t].View());
         var silent := was.spec.heartbeatTimeout.Some? && was.lastHeartbeatAt.Some?
                       && now - was.lastHeartbeatAt.value > was.spec.heartbeatTimeout.value;
         var long := was.spec.runtimeTimeout.Some? && was.startedAt.Some? && now - was.startedAt.value > was.spec.runtimeTimeout.value;
         if was.status == Running && (silent || long) then
           && queue.tasks[t] in timedOut
           && queue.tasks[t].View() == was.(status := TimedOut, finishedAt := Some(now), lockedBy := None,
                failureReason := Some(if silent then "Task heartbeat timed out" else "Task runtime timed out"))
         else queue.tasks[t] !in timedOut && queue.tasks[t].View() == was)
    {
      ghost var before := queue.State();
      timedOut := CheckAll(now);
      forall t | t in queue.tasks
        ensures queue.tasks[t] in timedOut <==> t in Overdue(queue.auditLog.secretLike, before, queue.order, now, [])
      {
        NamesHas(timedOut, queue.tasks[t]);
      }
      hide Names, Overdue, Watch;
      forall t | t in queue.tasks {
        CheckIsExact(queue.auditLog.secretLike, before, queue.order, now, t);
      }
    }

    /** The loop of a check. */
    method CheckAll(now: real) returns (timedOut: seq<RuntimeTask>)
      requires queue.Valid()
      modifies queue`db, queue.auditLog, queue.tasks.Values
      ensures queue.Valid()
      ensures queue.State() == Watch(queue.auditLog.secretLike, old(queue.State()), queue.order, now)
      ensures Names(timedOut) == Overdue(queue.auditLog.secretLike, old(queue.State()), queue.order, now, [])
      ensures forall task :: task in timedOut ==> task in queue.tasks.Values
    {
      ghost var before := queue.State();
      ghost var secretLike := queue.auditLog.secretLike;
      timedOut := [];
      assert queue.order[0..] == queue.order;
      for i := 0 to |queue.order|
        invariant queue.Valid()
        invariant Watch(secretLike, queue.State(), queue.order[i..], now) == Watch(secretLike, before, queue.order, now)
        invariant Overdue(secretLike, queue.State(), queue.order[i..], now, Names(timedOut))
               == Overdue(secretLike, before, queue.order, now, [])
        invariant forall task :: task in timedOut ==> task in queue.tasks.Values
      {
        hide Watch, Overdue, WatchOne, TimesOut, Names;
        var t := queue.order[i];
        assert t in queue.order;
        WatchUnfolds(secretLike, queue.State(), queue.order, i, now, Names(timedOut));
        var task := queue.tasks[t];
        var expired := CheckOne(task, now);
        if expired {
          NamesAppend(timedOut, task);
          timedOut := timedOut + [task];
        }
      }
    }
  }

  function Names(list: seq<RuntimeTask>): seq<TaskId> {
    if list == [] then [] else Names(list[..|list| - 1]) + [list[|list| - 1].spec.id]
  }

  lemma {:induction false} NamesHas(list: seq<RuntimeTask>, task: RuntimeTask)
    requires forall other :: other in list && other.spec.id == task.spec.id ==> other == task
    ensures task in list <==> task.spec.id in Names(list)
  {
    if list != [] {
      var before, last := list[..|list| - 1], list[|list| - 1];
      assert list == before + [last] && last in list;
      assert forall other :: other in before ==> other in list;
      NamesHas(before, task);
    }
  }

  lemma NamesAppend(list: seq<RuntimeTask>, task: RuntimeTask)
    ensures Names(list + [task]) == Names(list) + [task.spec.id]
  {
    assert (list + [task])[..|list|] == list;
  }

  class TaskRunner {
    const queue: TaskQueue
    const workerId: WorkerId

    constructor (queue: TaskQueue, workerId: WorkerId)
      ensures this.queue == queue && this.workerId == workerId
    {
      this.queue := queue;
      this.workerId := workerId;
    }

    /** The last call of a turn: `complete`, or what `_handle_failure` decides. */
    method Settle(task: RuntimeTask, now: real, outcome: KernelOutcome) returns (r: Reply)
      requires queue.Valid()
      modifies queue`db, queue.auditLog, queue.tasks.Values
      ensures queue.Valid()
      ensures var op := Settlement(old(task.View()), workerId, now, outcome);
        var (s, got) := LocalStep(queue.auditLog.secretLike, old(queue.State()), op);
        queue.State() == s && queue.Shows(r, got)
    {
      match Settlement(task.View(), workerId, now, outcome)
      case Complete(t, w, n) => r := queue.Complete(t, w, n);
      case Retry(t, w, reason) => r := queue.Retry(t, w, reason);
      case Fail(t, w, reason, n) => r := queue.Fail(t, w, reason, n);
    }

    method Note(entry: Entry)
      requires queue.Valid()
      modifies queue.auditLog
      ensures queue.Valid() && queue.State() == Log(queue.auditLog.secretLike, old(queue.State()), entry)
    {
      queue.auditLog.Record(entry);
    }

    /** `run_next`, with the kernel's outcome as an input. */
    method RunNext(now: real, outcome: KernelOutcome) returns (r: Reply)
      requires queue.Valid()
      modifies queue`db, queue.auditLog, queue.tasks.Values
      ensures queue.Valid()
      ensures var (s, got) := LocalQueue.RunNext(queue.auditLog.secretLike, old(queue.State()), workerId, now, outcome);
        queue.State() == s && queue.Shows(r, got)
    {
      r := queue.Claim(workerId, now);
      if !r.Got? {
        Note(IdleEntry(workerId));
      } else {
        var task := r.task;
        Note(StartedEntry(task.View(), workerId));
        if outcome.RunEnded? {
          Note(EndedEntry(task.View(), workerId, outcome.goalStatus));
        }
        r := Settle(task, now, outcome);
      }
    }
  }
}
