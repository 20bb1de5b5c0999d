/** The two queues in lock step: TaskQueue and PostgresTaskQueue, given the same calls by one
    process, answer alike and hold the same tasks. Two columns are not compared: the lease,
    which TaskQueue has not, and failure_reason, which only the Postgres statements clear. */
module LockStep {
  import opened Tasks
  import opened LeaseTable
  import opened LocalQueue

  predicate SameTask(a: Task, b: Task) {
    a.(failureReason := None) == b.(failureReason := None)
  }

  predicate SameOutcome(a: Outcome, b: Outcome) {
    if a.Returned? && b.Returned? then SameTask(a.task, b.task) else a == b
  }

  /** Same rows, whatever the order in which TaskQueue keeps them. */
  ghost predicate SameRows(s: QueueState, tb: Table) {
    && WellFormed(s) && ValidTable(tb) && s.tasks.Keys == tb.Keys
    && (forall t :: t in tb ==> SameTask(s.tasks[t], tb[t].task))
  }

  /** The index knows exactly the non-empty keys of the table. */
  ghost predicate SameKeys(s: QueueState, tb: Table) {
    && (forall k :: k in s.index ==> k != "" && s.index[k] in tb && tb[s.index[k]].task.spec.key == Some(k))
    && (forall t :: t in tb && Truthy(tb[t].task.spec.key) ==> tb[t].task.spec.key.value in s.index)
  }

  ghost predicate Sorted(s: QueueState) {
    forall i, j :: 0 <= i < j < |s.order| && s.order[i] in s.tasks && s.order[j] in s.tasks ==>
      Before(s.tasks[s.order[i]].spec, s.tasks[s.order[j]].spec)
  }

  ghost predicate Agree(s: QueueState, tb: Table) {
    SameRows(s, tb) && SameKeys(s, tb) && Sorted(s)
  }

  // ---------- one call ----------

  /** What a caller of a single process provides: a fresh id and a later enqueue time. */
  ghost predicate Newest(s: QueueState, spec: TaskSpec) {
    spec.id !in s.tasks && forall t :: t in s.tasks ==> Before(s.tasks[t].spec, spec)
  }

  lemma ExistingRow(lease: real, tb: Table, spec: TaskSpec, t: TaskId)
    requires ValidTable(tb) && t in tb && spec.key.Some? && tb[t].task.spec.key == spec.key
    ensures Step(lease, tb, Enqueue(spec)) == (tb, Returned(tb[t].task))
  {
  }

  /** The states after inserting the same new task on both sides. */
  ghost predicate Inserted(s: QueueState, tb: Table, spec: TaskSpec, s': QueueState, tb': Table) {
    && tb' == tb[spec.id := Row(NewTask(spec), None)]
    && s'.tasks == s.tasks[spec.id := NewTask(spec)] && s'.order == s.order + [spec.id]
    && s'.index == Indexed(s.index, spec)
  }

  lemma InsertKeepsRows(s: QueueState, tb: Table, spec: TaskSpec, s': QueueState, tb': Table)
    requires SameRows(s, tb) && spec.id !in tb && !KeyTaken(tb, spec.key)
    requires Inserted(s, tb, spec, s', tb')
    ensures SameRows(s', tb')
  {
    InsertKeepsShape(s, spec, s');
    InsertKeepsTable(tb, spec, tb');
    hide WellFormed, ValidTable;
  }

  lemma InsertKeepsShape(s: QueueState, spec: TaskSpec, s': QueueState)
    requires WellFormed(s) && spec.id !in s.tasks
    requires s'.tasks == s.tasks[spec.id := NewTask(spec)] && s'.order == s.order + [spec.id] && s'.index == Indexed(s.index, spec)
    ensures WellFormed(s')
  {
    forall t
      ensures t in s'.order <==> t in s'.tasks
    {
      assert t in s'.order <==> t in s.order || t == spec.id;
    }
  }

  lemma InsertKeepsTable(tb: Table, spec: TaskSpec, tb': Table)
    requires ValidTable(tb) && !KeyTaken(tb, spec.key) && tb' == tb[spec.id := Row(NewTask(spec), None)]
    ensures ValidTable(tb')
  {
    forall t, u | t in tb' && u in tb' && tb'[t].task.spec.key.Some? && tb'[t].task.spec.key == tb'[u].task.spec.key
      ensures t == u
    {
    }
  }

  lemma InsertKeepsKeys(s: QueueState, tb: Table, spec: TaskSpec, s': QueueState, tb': Table)
    requires SameKeys(s, tb) && spec.id !in tb && !KeyTaken(tb, spec.key)
    requires Inserted(s, tb, spec, s', tb')
    ensures SameKeys(s', tb')
  {
  }

  lemma InsertKeepsOrder(s: QueueState, tb: Table, spec: TaskSpec, s': QueueState, tb': Table)
    requires Sorted(s) && Newest(s, spec) && (forall t :: t in s.order ==> t in s.tasks)
    requires Inserted(s, tb, spec, s', tb')
    ensures Sorted(s')
  {
    forall i, j | 0 <= i < j < |s'.order|
      ensures Before(s'.tasks[s'.order[i]].spec, s'.tasks[s'.order[j]].spec)
    {
      assert s'.order[i] == s.order[i] && s.order[i] in s.order;
      if j < |s.order| {
        assert s'.order[j] == s.order[j] && s.order[j] in s.order;
      }
    }
  }

  /** The two enqueues when the key is not stored yet. */
  lemma InsertAgrees(secretLike: string -> bool, lease: real, s: QueueState, tb: Table, spec: TaskSpec)
    requires SameRows(s, tb) && SameKeys(s, tb) && spec.id !in tb && !KeyTaken(tb, spec.key)
    ensures var (s', a) := LocalStep(secretLike, s, Enqueue(spec));
      var (tb', b) := Step(lease, tb, Enqueue(spec));
      a == b == Returned(NewTask(spec)) && Inserted(s, tb, spec, s', tb')
  {
  }

  /** The two enqueues when the stored key is a proper one. */
  lemma DedupAgrees(secretLike: string -> bool, lease: real, s: QueueState, tb: Table, spec: TaskSpec)
    requires SameRows(s, tb) && SameKeys(s, tb) && Truthy(spec.key) && KeyTaken(tb, spec.key)
    ensures var (s', a) := LocalStep(secretLike, s, Enqueue(spec));
      var (tb', b) := Step(lease, tb, Enqueue(spec));
      && SameOutcome(a, b) && tb' == tb
      && s'.tasks == s.tasks && s'.order == s.order && s'.index == s.index
  {
    var t :| t in tb && tb[t].task.spec.key == spec.key;
    assert Truthy(tb[t].task.spec.key);
    ExistingRow(lease, tb, spec, s.index[spec.key.value]);
  }

  lemma EnqueueAgrees(secretLike: string -> bool, lease: real, s: QueueState, tb: Table, spec: TaskSpec)
    requires Agree(s, tb) && Newest(s, spec) && spec.key != Some("")
    ensures var (s', a) := LocalStep(secretLike, s, Enqueue(spec));
      var (tb', b) := Step(lease, tb, Enqueue(spec));
      Agree(s', tb') && SameOutcome(a, b)
  {
    var s', tb' := LocalStep(secretLike, s, Enqueue(spec)).0, Step(lease, tb, Enqueue(spec)).0;
    if KeyTaken(tb, spec.key) {
      DedupAgrees(secretLike, lease, s, tb, spec);
      SameQueueAgrees(s, s', tb);
    } else {
      InsertAgrees(secretLike, lease, s, tb, spec);
      InsertKeepsRows(s, tb, spec, s', tb');
      InsertKeepsKeys(s, tb, spec, s', tb');
      InsertKeepsOrder(s, tb, spec, s', tb');
    }
    hide LocalStep, Step, SameKeys, Inserted, SameRows, Sorted;
  }

  lemma SameQueueAgrees(s: QueueState, s': QueueState, tb: Table)
    requires Agree(s, tb) && s'.tasks == s.tasks && s'.order == s.order && s'.index == s.index
    ensures Agree(s', tb)
  {
  }

  /** Where the two part: an empty key is a key to the unique index but none to TaskQueue. From
      agreeing states they answer an enqueue alike unless the key is empty and already stored. */
  lemma {:induction false} EnqueueAgreesIff(secretLike: string -> bool, lease: real, s: QueueState, tb: Table, spec: TaskSpec)
    requires SameRows(s, tb) && SameKeys(s, tb) && spec.id !in tb
    ensures SameOutcome(LocalStep(secretLike, s, Enqueue(spec)).1, Step(lease, tb, Enqueue(spec)).1)
       <==> !(spec.key == Some("") && KeyTaken(tb, spec.key))
  {
    if !KeyTaken(tb, spec.key) {
      InsertAgrees(secretLike, lease, s, tb, spec);
    } else if Truthy(spec.key) {
      DedupAgrees(secretLike, lease, s, tb, spec);
    } else {
      var t :| t in tb && tb[t].task.spec.key == spec.key;
      ExistingRow(lease, tb, spec, t);
    }
  }

  /** TaskQueue takes the first queued task of its list; without knowing that the list is
      sorted, the two queues claim alike exactly when that task is also the first by time. */
  lemma ClaimAgreesIff(secretLike: string -> bool, lease: real, s: QueueState, tb: Table, w: WorkerId, now: real)
    requires SameRows(s, tb)
    ensures var first := FirstQueued(s.tasks, s.order);
      SameOutcome(LocalStep(secretLike, s, Claim(w, now, {})).1, Step(lease, tb, Claim(w, now, {})).1)
      <==> (first.Some? ==> IsNext(tb, {}, first.value))
  {
    FirstQueuedIsQueued(s.tasks, s.order);
    ClaimFindsWork(lease, tb, w, now, {});
    ClaimReturnsNext(lease, tb, w, now, {});
  }

  lemma {:induction false} FirstInSortedList(s: QueueState, order: seq<TaskId>, t: TaskId)
    requires FirstQueued(s.tasks, order) == Some(t)
    requires forall u :: u in order ==> u in s.tasks
    requires forall i, j :: 0 <= i < j < |order| ==> Before(s.tasks[order[i]].spec, s.tasks[order[j]].spec)
    ensures t in s.tasks
    ensures forall u :: u in order && u != t && s.tasks[u].status == Queued ==> Before(s.tasks[t].spec, s.tasks[u].spec)
  {
    if order[0] == t {
      forall u | u in order && u != t ensures Before(s.tasks[t].spec, s.tasks[u].spec) {
        var j :| 0 <= j < |order| && order[j] == u;
      }
    } else {
      FirstInSortedList(s, order[1..], t);
    }
  }

  /** The states after the same update of one task on both sides. */
  ghost predicate Updated(s: QueueState, tb: Table, task: Task, row: Row, s': QueueState) {
    && task.spec.id in tb && task.spec.id in s.tasks && task.spec == s.tasks[task.spec.id].spec
    && SameTask(task, row.task)
    && s'.tasks == s.tasks[task.spec.id := task] && s'.order == s.order && s'.index == s.index
  }

  lemma UpdateKeepsRows(s: QueueState, tb: Table, task: Task, row: Row, s': QueueState)
    requires SameRows(s, tb) && Updated(s, tb, task, row, s')
    ensures SameRows(s', tb[task.spec.id := row])
  {
    var tb' := tb[task.spec.id := row];
    forall t | t in tb ensures tb'[t].task.spec == tb[t].task.spec && SameTask(s'.tasks[t], tb'[t].task) {
      assert SameTask(s.tasks[t], tb[t].task);
    }
    assert ValidTable(tb');
  }

  lemma UpdateKeepsKeys(s: QueueState, tb: Table, task: Task, row: Row, s': QueueState)
    requires SameRows(s, tb) && SameKeys(s, tb) && Updated(s, tb, task, row, s')
    ensures SameKeys(s', tb[task.spec.id := row])
  {
    assert SameTask(s.tasks[task.spec.id], tb[task.spec.id].task);
  }

  lemma UpdateKeepsOrder(s: QueueState, tb: Table, task: Task, row: Row, s': QueueState)
    requires Sorted(s) && Updated(s, tb, task, row, s')
    ensures Sorted(s')
  {
  }

  lemma UpdateKeepsAgreement(s: QueueState, tb: Table, task: Task, row: Row, s': QueueState)
    requires Agree(s, tb) && Updated(s, tb, task, row, s')
    ensures Agree(s', tb[task.spec.id := row])
  {
    UpdateKeepsRows(s, tb, task, row, s');
    UpdateKeepsKeys(s, tb, task, row, s');
    UpdateKeepsOrder(s, tb, task, row, s');
    hide SameRows, SameKeys, Sorted, Updated;
  }

  lemma ClaimAgrees(secretLike: string -> bool, lease: real, s: QueueState, tb: Table, w: WorkerId, now: real)
    requires Agree(s, tb)
    ensures var (s', a) := LocalStep(secretLike, s, Claim(w, now, {}));
      var (tb', b) := Step(lease, tb, Claim(w, now, {}));
      Agree(s', tb') && SameOutcome(a, b)
  {
    var first := FirstQueued(s.tasks, s.order);
    FirstQueuedIsQueued(s.tasks, s.order);
    ClaimTakesFirst(secretLike, s, w, now);
    ClaimAgreesIff(secretLike, lease, s, tb, w, now);
    if first.Some? {
      FirstIsNext(s, tb, first.value);
      ClaimWritesNext(lease, tb, w, now, {}, first.value);
      ClaimUpdates(secretLike, s, tb, w, now, lease, first.value);
      hide LocalStep, Step, FirstQueued, Agree, IsNext;
      var s' := LocalStep(secretLike, s, Claim(w, now, {})).0;
      var row := Apply(lease, tb[first.value], Claimed(w, now));
      UpdateKeepsAgreement(s, tb, s'.tasks[first.value], row, s');
    }
  }

  lemma FirstIsNext(s: QueueState, tb: Table, t: TaskId)
    requires Agree(s, tb) && FirstQueued(s.tasks, s.order) == Some(t)
    ensures IsNext(tb, {}, t)
  {
    FirstQueuedIsQueued(s.tasks, s.order);
    FirstInSortedList(s, s.order, t);
    hide FirstQueued;
  }

  lemma ClaimUpdates(secretLike: string -> bool, s: QueueState, tb: Table, w: WorkerId, now: real, lease: real, t: TaskId)
    requires SameRows(s, tb) && FirstQueued(s.tasks, s.order) == Some(t) && t in tb
    ensures var s' := LocalStep(secretLike, s, Claim(w, now, {})).0;
      t in s'.tasks && s'.tasks[t].spec.id == t && Updated(s, tb, s'.tasks[t], Apply(lease, tb[t], Claimed(w, now)), s')
  {
    hide WorkerEntry, RetriedEntry, TaskEntry, LocalQueue.ClaimedEntry, EnqueuedEntry, DeduplicatedEntry, AuditChain.Screened, PersistUpdate, PersistEnqueue, FirstQueued;
    assert SameTask(s.tasks[t], tb[t].task);
  }

  /** The calls that address one existing task; here the reaper statements are excluded. */
  predicate Addressed(op: Op) {
    op.Heartbeat? || op.Complete? || op.Fail? || op.Retry? || op.Cancel? || op.Pause? || op.Resume?
  }

  /** Both sides refuse alike, or both update the addressed task alike. */
  ghost predicate SameEffect(s: QueueState, tb: Table, t: TaskId, local: (QueueState, Outcome), remote: (Table, Outcome)) {
    if local.1.Returned? then
      && remote.1.Returned? && local.1.task.spec.id == t && t in remote.0
      && remote.1.task == remote.0[t].task && remote.0 == tb[t := remote.0[t]]
      && Updated(s, tb, local.1.task, remote.0[t], local.0)
    else local.0 == s && remote == (tb, local.1)
  }

  lemma BeatAgrees(secretLike: string -> bool, lease: real, s: QueueState, tb: Table, op: Op)
    requires SameRows(s, tb) && (op.Heartbeat? || op.Pause?)
    ensures SameEffect(s, tb, op.id, LocalStep(secretLike, s, op), Step(lease, tb, op))
  {
    hide WorkerEntry, RetriedEntry, TaskEntry, LocalQueue.ClaimedEntry, EnqueuedEntry, DeduplicatedEntry, AuditChain.Screened, PersistUpdate, PersistEnqueue, FirstQueued;
    assert op.id in tb ==> SameTask(s.tasks[op.id], tb[op.id].task);
  }

  lemma FinishAgrees(secretLike: string -> bool, lease: real, s: QueueState, tb: Table, op: Op)
    requires SameRows(s, tb) && (op.Complete? || op.Fail? || op.Cancel?)
    ensures SameEffect(s, tb, op.id, LocalStep(secretLike, s, op), Step(lease, tb, op))
  {
    hide WorkerEntry, RetriedEntry, TaskEntry, LocalQueue.ClaimedEntry, EnqueuedEntry, DeduplicatedEntry, AuditChain.Screened, PersistUpdate, PersistEnqueue, FirstQueued;
    assert op.id in tb ==> SameTask(s.tasks[op.id], tb[op.id].task);
  }

  lemma RetryAgrees(secretLike: string -> bool, lease: real, s: QueueState, tb: Table, op: Op)
    requires SameRows(s, tb) && op.Retry?
    ensures SameEffect(s, tb, op.id, LocalStep(secretLike, s, op), Step(lease, tb, op))
  {
    hide WorkerEntry, RetriedEntry, TaskEntry, LocalQueue.ClaimedEntry, EnqueuedEntry, DeduplicatedEntry, AuditChain.Screened, PersistUpdate, PersistEnqueue, FirstQueued;
    assert op.id in tb ==> SameTask(s.tasks[op.id], tb[op.id].task);
  }

  lemma ResumeAgrees(secretLike: string -> bool, lease: real, s: QueueState, tb: Table, op: Op)
    requires SameRows(s, tb) && op.Resume?
    ensures SameEffect(s, tb, op.id, LocalStep(secretLike, s, op), Step(lease, tb, op))
  {
    hide WorkerEntry, RetriedEntry, TaskEntry, LocalQueue.ClaimedEntry, EnqueuedEntry, DeduplicatedEntry, AuditChain.Screened, PersistUpdate, PersistEnqueue, FirstQueued;
    assert op.id in tb ==> SameTask(s.tasks[op.id], tb[op.id].task);
  }

  lemma AddressedAgrees(secretLike: string -> bool, lease: real, s: QueueState, tb: Table, op: Op)
    requires Agree(s, tb) && Addressed(op)
    ensures Agree(LocalStep(secretLike, s, op).0, Step(lease, tb, op).0)
    ensures SameOutcome(LocalStep(secretLike, s, op).1, Step(lease, tb, op).1)
  {
    if op.Heartbeat? || op.Pause? {
      BeatAgrees(secretLike, lease, s, tb, op);
    } else if op.Retry? {
      RetryAgrees(secretLike, lease, s, tb, op);
    } else if op.Resume? {
      ResumeAgrees(secretLike, lease, s, tb, op);
    } else {
      FinishAgrees(secretLike, lease, s, tb, op);
    }
    SameEffectAgrees(s, tb, op.id, LocalStep(secretLike, s, op), Step(lease, tb, op));
  }

  lemma SameEffectAgrees(s: QueueState, tb: Table, t: TaskId, local: (QueueState, Outcome), remote: (Table, Outcome))
    requires Agree(s, tb) && SameEffect(s, tb, t, local, remote)
    ensures Agree(local.0, remote.0) && SameOutcome(local.1, remote.1)
  {
    if local.1.Returned? {
      UpdateKeepsAgreement(s, tb, local.1.task, remote.0[t], local.0);
    }
  }

  // ---------- whole runs ----------

  /** The same calls, made on TaskQueue alone. */
  function LocalExec(secretLike: string -> bool, db: Option<Mirror>, ops: seq<Op>): QueueState {
    if ops == [] then EmptyQueue(db)
    else LocalStep(secretLike, LocalExec(secretLike, db, ops[..|ops| - 1]), ops[|ops| - 1]).0
  }

  /** What a single process does: no reaper, no foreign row locks, ids that are fresh, enqueue
      times that do not go back (ties broken by id), and no empty idempotency key. */
  ghost predicate Orderly(ops: seq<Op>) {
    && (forall i :: 0 <= i < |ops| ==> !ops[i].ReapRequeue? && !ops[i].ReapTimeOut?)
    && (forall i :: 0 <= i < |ops| && ops[i].Claim? ==> ops[i].skipped == {})
    && (forall i :: 0 <= i < |ops| && ops[i].Enqueue? ==> ops[i].spec.key != Some(""))
    && (forall i, j :: 0 <= i < j < |ops| && ops[i].Enqueue? && ops[j].Enqueue? ==>
          ops[i].spec.id != ops[j].spec.id && Before(ops[i].spec, ops[j].spec))
  }

  /** Every task in the table was enqueued by one of the calls. */
  lemma {:induction false} TasksComeFromCalls(lease: real, ops: seq<Op>, t: TaskId)
    requires t in Exec(lease, ops)
    ensures exists i :: 0 <= i < |ops| && ops[i] == Enqueue(Exec(lease, ops)[t].task.spec)
  {
    var before, op := ops[..|ops| - 1], ops[|ops| - 1];
    ExecIsValid(lease, before);
    StepKeepsSpec(lease, Exec(lease, before), op, t);
    if t in Exec(lease, before) {
      TasksComeFromCalls(lease, before, t);
      var i :| 0 <= i < |before| && before[i] == Enqueue(Exec(lease, before)[t].task.spec);
      assert ops[i] == before[i];
    } else {
      assert ops[|ops| - 1] == Enqueue(op.spec);
    }
  }

  lemma NewestOfRun(secretLike: string -> bool, lease: real, s: QueueState, ops: seq<Op>, spec: TaskSpec)
    requires Orderly(ops + [Enqueue(spec)]) && Agree(s, Exec(lease, ops))
    ensures Newest(s, spec) && spec.key != Some("")
  {
    var run := ops + [Enqueue(spec)];
    assert run[|ops|] == Enqueue(spec);
    forall t | t in s.tasks ensures t != spec.id && Before(s.tasks[t].spec, spec) {
      assert SameTask(s.tasks[t], Exec(lease, ops)[t].task);
      TasksComeFromCalls(lease, ops, t);
      var i :| 0 <= i < |ops| && ops[i] == Enqueue(s.tasks[t].spec);
      assert run[i] == ops[i];
    }
  }

  /** Lock step: after the same orderly calls the two queues agree, and they gave the last call
      (hence, taking prefixes, every call) the same answer or the same kind of error. */
  lemma {:induction false} QueuesRunInLockStep(secretLike: string -> bool, lease: real, db: Option<Mirror>, ops: seq<Op>)
    requires Orderly(ops)
    ensures Agree(LocalExec(secretLike, db, ops), Exec(lease, ops))
    ensures ops != [] ==>
      var before, op := ops[..|ops| - 1], ops[|ops| - 1];
      SameOutcome(LocalStep(secretLike, LocalExec(secretLike, db, before), op).1, Step(lease, Exec(lease, before), op).1)
  {
    if ops != [] {
      var before, op := ops[..|ops| - 1], ops[|ops| - 1];
      assert ops == before + [op];
      assert forall i :: 0 <= i < |before| ==> before[i] == ops[i];
      QueuesRunInLockStep(secretLike, lease, db, before);
      var s, tb := LocalExec(secretLike, db, before), Exec(lease, before);
      match op
      case Enqueue(spec) =>
        NewestOfRun(secretLike, lease, s, before, spec);
        EnqueueAgrees(secretLike, lease, s, tb, spec);
      case Claim(w, now, skipped) => ClaimAgrees(secretLike, lease, s, tb, w, now);
      case _ => AddressedAgrees(secretLike, lease, s, tb, op);
    }
  }

  /** What TaskQueue claims after calls by a single process whose enqueue times do not go back, ties
      broken by id: a queued task than which no other was enqueued earlier. */
  lemma FirstQueuedIsOldest(secretLike: string -> bool, lease: real, db: Option<Mirror>, ops: seq<Op>, t: TaskId, u: TaskId)
    requires forall i :: 0 <= i < |ops| ==> !ops[i].ReapRequeue? && !ops[i].ReapTimeOut?
    requires forall i :: 0 <= i < |ops| && ops[i].Claim? ==> ops[i].skipped == {}
    requires forall i :: 0 <= i < |ops| && ops[i].Enqueue? ==> ops[i].spec.key != Some("")
    requires forall i, j :: 0 <= i < j < |ops| && ops[i].Enqueue? && ops[j].Enqueue? ==>
      (var a, b := ops[i].spec, ops[j].spec;
       && a.id != b.id && a.enqueuedAt <= b.enqueuedAt
       && (a.enqueuedAt == b.enqueuedAt ==>
             (|a.id| < |b.id| && b.id[..|a.id|] == a.id)
             || exists k :: 0 <= k < |a.id| && k < |b.id| && a.id[..k] == b.id[..k] && a.id[k] < b.id[k]))
    requires var s := LocalExec(secretLike, db, ops);
      FirstQueued(s.tasks, s.order) == Some(t) && u in s.tasks && s.tasks[u].status == Queued
    ensures var tasks := LocalExec(secretLike, db, ops).tasks;
      && t in tasks && tasks[t].status == Queued && tasks[t].spec.enqueuedAt <= tasks[u].spec.enqueuedAt
      && (tasks[t].spec.enqueuedAt == tasks[u].spec.enqueuedAt && t != u ==>
            (|t| < |u| && u[..|t|] == t)
            || exists k :: 0 <= k < |t| && k < |u| && t[..k] == u[..k] && t[k] < u[k])
  {
    forall i, j | 0 <= i < j < |ops| && ops[i].Enqueue? && ops[j].Enqueue?
      ensures ops[i].spec.id != ops[j].spec.id && Before(ops[i].spec, ops[j].spec)
    {
      TextLessIff(ops[i].spec.id, ops[j].spec.id);
    }
    assert Orderly(ops);
    var s, tb := LocalExec(secretLike, db, ops), Exec(lease, ops);
    QueuesRunInLockStep(secretLike, lease, db, ops);
    FirstIsNext(s, tb, t);
    assert SameTask(s.tasks[t], tb[t].task) && SameTask(s.tasks[u], tb[u].task);
    assert Claimable(tb, {}, u);
    TextLessIff(t, u);
    hide LocalExec, Exec, TextLess, FirstQueued;
  }
}
