/** TaskRunner processes over the shared table. A process claims a task, works on the copy
    the claim returned, and settles it by that copy, while reapers, callers and the other
    processes act in between. `ids` gives each process the worker id it was started with. */
module RunnerSystem {
  import opened Tasks
  import opened LeaseTable
  import opened LeaseHistory

  /** What `_handle_failure` looks at: the attempts of the copy, not of the row. */
  datatype Copy = Copy(id: TaskId, attempts: int, maxAttempts: int)

  datatype System = System(table: Table, busy: map<nat, Copy>)

  datatype RunnerOp =
    | Submit(spec: TaskSpec)
    | Start(p: nat, now: real, skipped: set<TaskId>)
    | Pulse(p: nat, id: TaskId, now: real)
    | Settle(p: nat, succeeded: bool, reason: string, now: real)
    | SweepRequeue(now: real)
    | SweepTimeOut(now: real)

  /** A process runs one task at a time, and RetryPolicy refuses fewer than one attempt. */
  predicate Allowed(s: System, rop: RunnerOp) {
    match rop
    case Submit(spec) => spec.maxAttempts >= 1
    case Start(p, _, _) => p !in s.busy
    case Settle(p, _, _, _) => p in s.busy
    case _ => true
  }

  function Translate(ids: nat -> WorkerId, s: System, rop: RunnerOp): Op
    requires Allowed(s, rop)
  {
    match rop
    case Submit(spec) => Enqueue(spec)
    case Start(p, now, skipped) => Claim(ids(p), now, skipped)
    case Pulse(p, t, now) => Heartbeat(t, ids(p), now)
    case Settle(p, succeeded, reason, now) =>
      var copy := s.busy[p];
      if succeeded then Complete(copy.id, ids(p), now)
      else if copy.attempts < copy.maxAttempts then Retry(copy.id, ids(p), reason)
      else Fail(copy.id, ids(p), reason, now)
    case SweepRequeue(now) => ReapRequeue(now)
    case SweepTimeOut(now) => ReapTimeOut(now)
  }

  /** A settled process is idle again even when the queue refused it with PermissionError. */
  ghost function Next(ids: nat -> WorkerId, lease: real, s: System, rop: RunnerOp): System
    requires Allowed(s, rop)
  {
    var (table, outcome) := Step(lease, s.table, Translate(ids, s, rop));
    match rop
    case Start(p, _, _) =>
      if outcome.Returned? then
        var task := outcome.task;
        System(table, s.busy[p := Copy(task.spec.id, task.attempts, task.spec.maxAttempts)])
      else System(table, s.busy)
    case Settle(p, _, _, _) => System(table, s.busy - {p})
    case _ => System(table, s.busy)
  }

  ghost function After(ids: nat -> WorkerId, lease: real, run: seq<RunnerOp>): Option<System> {
    if run == [] then Some(System(map[], map[]))
    else
      var s := After(ids, lease, run[..|run| - 1]);
      if s.Some? && Allowed(s.value, run[|run| - 1]) then Some(Next(ids, lease, s.value, run[|run| - 1])) else None
  }

  lemma AfterPrefix(ids: nat -> WorkerId, lease: real, run: seq<RunnerOp>, n: nat)
    requires n < |run|
    ensures var s := After(ids, lease, run[..n]);
      After(ids, lease, run[..n + 1])
        == if s.Some? && Allowed(s.value, run[n]) then Some(Next(ids, lease, s.value, run[n])) else None
  {
    assert run[..n + 1][..n] == run[..n];
  }

  /** A run goes on with any move, but for a task that may never be tried, a second task for a
      process, and a settlement by one that has none. */
  lemma GoesOnIff(ids: nat -> WorkerId, lease: real, run: seq<RunnerOp>, rop: RunnerOp)
    requires After(ids, lease, run).Some?
    ensures After(ids, lease, run + [rop]).Some? <==>
      && (rop.Submit? ==> rop.spec.maxAttempts > 0)
      && (rop.Start? ==> rop.p !in After(ids, lease, run).value.busy)
      && (rop.Settle? ==> rop.p in After(ids, lease, run).value.busy)
  {
    assert (run + [rop])[..|run|] == run;
  }

  /** A settlement: as long as the process holds the task, it succeeds, waits for another attempt or
      fails, by the attempts of the copy; after that it changes nothing. */
  lemma SettlesByCopy(ids: nat -> WorkerId, lease: real, s: System, p: nat, succeeded: bool, reason: string, now: real)
    requires p in s.busy
    ensures var s', copy := Next(ids, lease, s, Settle(p, succeeded, reason, now)), s.busy[p];
      && s'.busy == (map q | q in s.busy && q != p :: s.busy[q])
      && s'.table.Keys == s.table.Keys
      && (forall t :: t in s.table && t != copy.id ==> s'.table[t] == s.table[t])
      && (copy.id in s.table ==>
            var task, task' := s.table[copy.id].task, s'.table[copy.id].task;
            if task.status != Running || task.lockedBy != Some(ids(p)) then s'.table[copy.id] == s.table[copy.id]
            else
              && task'.status == (if succeeded then Succeeded else if copy.attempts < copy.maxAttempts then Queued else Failed)
              && task'.failureReason == (if succeeded then None else Some(reason))
              && task'.finishedAt == (if succeeded || copy.attempts >= copy.maxAttempts then Some(now) else None)
              && task'.lockedBy == None && s'.table[copy.id].lease == None
              && task'.attempts == task.attempts && task'.spec == task.spec)
  {
  }

  /** The calls a run makes on the table. */
  ghost function Calls(ids: nat -> WorkerId, lease: real, run: seq<RunnerOp>): seq<Op>
    requires After(ids, lease, run).Some?
  {
    if run == [] then []
    else
      Calls(ids, lease, run[..|run| - 1])
      + [Translate(ids, After(ids, lease, run[..|run| - 1]).value, run[|run| - 1])]
  }

  lemma {:induction false} RunIsExec(ids: nat -> WorkerId, lease: real, run: seq<RunnerOp>)
    requires After(ids, lease, run).Some?
    ensures After(ids, lease, run).value.table == Exec(lease, Calls(ids, lease, run))
  {
    if run != [] {
      RunIsExec(ids, lease, run[..|run| - 1]);
      var calls := Calls(ids, lease, run);
      assert calls[..|calls| - 1] == Calls(ids, lease, run[..|run| - 1]);
    }
  }

  // ---------- the invariant ----------

  ghost predicate DistinctIds(ids: nat -> WorkerId) {
    forall p: nat, q: nat :: ids(p) == ids(q) ==> p == q
  }

  /** Process `p` works on the row, and its copy still agrees with it. */
  predicate WorksOn(ids: nat -> WorkerId, s: System, t: TaskId, p: nat) {
    && t in s.table && p in s.busy
    && s.table[t].task.lockedBy == Some(ids(p))
    && s.busy[p] == Copy(t, s.table[t].task.attempts, s.table[t].task.spec.maxAttempts)
  }

  ghost predicate RowInv(ids: nat -> WorkerId, s: System, t: TaskId) {
    t in s.table ==>
      var task := s.table[t].task;
      && task.status in {Queued, Running, Succeeded, Failed, TimedOut}
      && 0 <= task.attempts <= task.spec.maxAttempts
      && (task.status == Queued ==> task.attempts < task.spec.maxAttempts)
      && (task.status == Running ==> s.table[t].lease.Some? && exists p :: WorksOn(ids, s, t, p))
  }

  ghost predicate Inv(ids: nat -> WorkerId, s: System) {
    ValidTable(s.table) && forall t :: RowInv(ids, s, t)
  }

  lemma StartKeepsRow(ids: nat -> WorkerId, lease: real, s: System, rop: RunnerOp, t: TaskId)
    requires rop.Start? && ValidTable(s.table) && RowInv(ids, s, t) && Allowed(s, rop)
    ensures RowInv(ids, Next(ids, lease, s, rop), t)
  {
    var s' := Next(ids, lease, s, rop);
    ClaimReturnsNext(lease, s.table, ids(rop.p), rop.now, rop.skipped);
    StepByEffects(lease, s.table, Claim(ids(rop.p), rop.now, rop.skipped), t);
    if t in s.table {
      if IsNext(s.table, rop.skipped, t) {
        assert WorksOn(ids, s', t, rop.p);
      } else if s.table[t].task.status == Running {
        var q :| WorksOn(ids, s, t, q);
        assert WorksOn(ids, s', t, q);
      }
    }
  }

  /** The copies of the other processes stay, and a settled copy was that of the row's holder. */
  lemma OthersKeepWork(ids: nat -> WorkerId, lease: real, s: System, rop: RunnerOp, t: TaskId, q: nat)
    requires DistinctIds(ids) && !rop.Start? && Allowed(s, rop) && WorksOn(ids, s, t, q) && s.table[t].task.status == Running
    requires ValidTable(s.table)
    ensures var s' := Next(ids, lease, s, rop);
      t in s'.table && (s'.table[t].task.status == Running ==> WorksOn(ids, s', t, q))
  {
    StepByEffects(lease, s.table, Translate(ids, s, rop), t);
    if rop.Settle? && rop.p == q {
      assert Owned(s.table, t, ids(q));
    }
    hide Step;
  }

  /** The changes that runners and reapers make. */
  predicate ByRunner(e: Effect) {
    e.Claimed? || e.Completed? || e.Failing? || e.Retried? || e.Requeued? || e.Exhausting?
  }

  /** What RowInv says of a row apart from who works on it. */
  predicate RowCounts(row: Row) {
    && row.task.status in {Queued, Running, Succeeded, Failed, TimedOut}
    && 0 <= row.task.attempts <= row.task.spec.maxAttempts
    && (row.task.status == Queued ==> row.task.attempts < row.task.spec.maxAttempts)
    && (row.task.status == Running ==> row.lease.Some?)
  }

  /** A retry needs an attempt left; the holder's own copy sees to that. */
  lemma EffectKeepsCounts(lease: real, row: Row, e: Effect)
    requires RowCounts(row) && Enabled(Some(row), e) && (ByRunner(e) || e.Beat?)
    requires e.Retried? ==> row.task.attempts < row.task.spec.maxAttempts
    ensures RowCounts(Apply(lease, row, e))
  {
  }

  lemma OthersKeepCounts(ids: nat -> WorkerId, lease: real, s: System, rop: RunnerOp, t: TaskId)
    requires DistinctIds(ids) && !rop.Start? && RowInv(ids, s, t) && Allowed(s, rop) && t in s.table
    ensures var e := EffectOn(s.table, Translate(ids, s, rop), t);
      RowCounts(s.table[t]) && (e.Some? ==> RowCounts(Apply(lease, s.table[t], e.value)))
  {
    var e := EffectOn(s.table, Translate(ids, s, rop), t);
    if e.Some? {
      EffectIsEnabled(s.table, Translate(ids, s, rop), t);
      if e.value.Retried? {
        var q :| WorksOn(ids, s, t, q);
        assert q == rop.p;
      }
      EffectKeepsCounts(lease, s.table[t], e.value);
    }
  }

  lemma OthersKeepRow(ids: nat -> WorkerId, lease: real, s: System, rop: RunnerOp, t: TaskId)
    requires DistinctIds(ids)
    requires !rop.Start? && ValidTable(s.table) && RowInv(ids, s, t) && Allowed(s, rop)
    ensures RowInv(ids, Next(ids, lease, s, rop), t)
  {
    var op, s' := Translate(ids, s, rop), Next(ids, lease, s, rop);
    assert s'.table == Step(lease, s.table, op).0;
    StepByEffects(lease, s.table, op, t);
    if t in s.table {
      OthersKeepCounts(ids, lease, s, rop, t);
      if s.table[t].task.status == Running {
        var q :| WorksOn(ids, s, t, q);
        OthersKeepWork(ids, lease, s, rop, t, q);
      }
    }
    hide Next, Step, WorksOn;
  }

  lemma {:induction false} RunKeepsInv(ids: nat -> WorkerId, lease: real, run: seq<RunnerOp>)
    requires DistinctIds(ids) && After(ids, lease, run).Some?
    ensures Inv(ids, After(ids, lease, run).value)
  {
    if run != [] {
      var s, rop := After(ids, lease, run[..|run| - 1]).value, run[|run| - 1];
      RunKeepsInv(ids, lease, run[..|run| - 1]);
      StepKeepsValid(lease, s.table, Translate(ids, s, rop));
      forall t ensures RowInv(ids, Next(ids, lease, s, rop), t) {
        assert RowInv(ids, s, t);
        if rop.Start? {
          StartKeepsRow(ids, lease, s, rop, t);
        } else {
          OthersKeepRow(ids, lease, s, rop, t);
        }
      }
    }
  }

  // ---------- the retry bound ----------

  ghost predicate Bounded(tb: Table) {
    forall t :: t in tb ==>
      && tb[t].task.attempts <= tb[t].task.spec.maxAttempts
      && (tb[t].task.status == Queued ==> tb[t].task.attempts < tb[t].task.spec.maxAttempts)
  }

  ghost predicate RetriesAreBounded(ids: nat -> WorkerId, lease: real) {
    forall run :: After(ids, lease, run).Some? ==> Bounded(After(ids, lease, run).value.table)
  }

  /** A runner that shares its id with another one: its task is reaped and claimed by the
      namesake, and the stale copy then re-queues a task that has no attempt left. */
  function NamesakeRun(lease: real, p: nat, q: nat): seq<RunnerOp> {
    [Submit(TaskSpec("t", "plan", "{}", None, 2, None, None, 0.0)),
     Start(p, 0.0, {}), SweepRequeue(lease + 1.0), Start(q, lease + 1.0, {}), Settle(p, false, "boom", lease + 2.0)]
  }

  lemma OneRowClaim(lease: real, t: TaskId, row: Row, w: WorkerId, now: real)
    requires row.task.status == Queued && row.task.spec.id == t
    ensures Step(lease, map[t := row], Claim(w, now, {})) == Write(lease, map[t := row], t, Claimed(w, now))
  {
    assert IsNext(map[t := row], {}, t);
  }

  lemma OneRowStart(ids: nat -> WorkerId, lease: real, t: TaskId, row: Row, busy: map<nat, Copy>, p: nat, now: real)
    requires row.task.status == Queued && row.task.spec.id == t && p !in busy
    ensures var row' := Apply(lease, row, Claimed(ids(p), now));
      Next(ids, lease, System(map[t := row], busy), Start(p, now, {}))
        == System(map[t := row'], busy[p := Copy(t, row'.task.attempts, row'.task.spec.maxAttempts)])
  {
    OneRowClaim(lease, t, row, ids(p), now);
  }

  lemma OneRowSweep(ids: nat -> WorkerId, lease: real, t: TaskId, row: Row, busy: map<nat, Copy>, now: real)
    requires Expired(row, now) && row.task.attempts < row.task.spec.maxAttempts
    ensures Next(ids, lease, System(map[t := row], busy), SweepRequeue(now))
         == System(map[t := Apply(lease, row, Requeued(now))], busy)
  {
    var table := Step(lease, map[t := row], ReapRequeue(now)).0;
    assert table == map[t := Apply(lease, row, Requeued(now))];
  }

  lemma FirstClaim(ids: nat -> WorkerId, lease: real, p: nat, q: nat) returns (row: Row)
    ensures row.task.status == Running && row.task.attempts == 1 && row.lease == Some(lease)
    ensures row.task.spec.id == "t" && row.task.spec.maxAttempts == 2
    ensures After(ids, lease, NamesakeRun(lease, p, q)[..2]) == Some(System(map["t" := row], map[p := Copy("t", 1, 2)]))
  {
    var run := NamesakeRun(lease, p, q);
    var row0 := Row(NewTask(run[0].spec), None);
    assert run[..0] == [];
    AfterPrefix(ids, lease, run, 0);
    assert After(ids, lease, run[..1]) == Some(System(map["t" := row0], map[]));
    AfterPrefix(ids, lease, run, 1);
    OneRowStart(ids, lease, "t", row0, map[], p, 0.0);
    row := Apply(lease, row0, Claimed(ids(p), 0.0));
  }

  /** After three steps the task is queued again while the first copy is still at work. */
  lemma FirstClaimIsReaped(ids: nat -> WorkerId, lease: real, p: nat, q: nat) returns (row: Row)
    ensures row.task.status == Queued && row.task.attempts == 1
    ensures row.task.spec.id == "t" && row.task.spec.maxAttempts == 2
    ensures After(ids, lease, NamesakeRun(lease, p, q)[..3]) == Some(System(map["t" := row], map[p := Copy("t", 1, 2)]))
  {
    var running := FirstClaim(ids, lease, p, q);
    row := Apply(lease, running, Requeued(lease + 1.0));
    AfterPrefix(ids, lease, NamesakeRun(lease, p, q), 2);
    OneRowSweep(ids, lease, "t", running, map[p := Copy("t", 1, 2)], lease + 1.0);
  }

  /** After the fourth step both copies point at the row, the older one being stale. */
  lemma NamesakesShareTheLock(ids: nat -> WorkerId, lease: real, p: nat, q: nat) returns (row: Row)
    requires p != q && ids(p) == ids(q)
    ensures row.task.status == Running && row.task.lockedBy == Some(ids(p))
    ensures row.task.attempts == row.task.spec.maxAttempts == 2
    ensures After(ids, lease, NamesakeRun(lease, p, q)[..4])
         == Some(System(map["t" := row], map[p := Copy("t", 1, 2), q := Copy("t", 2, 2)]))
  {
    var queued := FirstClaimIsReaped(ids, lease, p, q);
    row := Apply(lease, queued, Claimed(ids(q), lease + 1.0));
    AfterPrefix(ids, lease, NamesakeRun(lease, p, q), 3);
    OneRowStart(ids, lease, "t", queued, map[p := Copy("t", 1, 2)], q, lease + 1.0);
  }

  /** A copy with an attempt left settles a failure by a retry, whatever the row says. */
  lemma OneRowRetry(ids: nat -> WorkerId, lease: real, t: TaskId, row: Row, busy: map<nat, Copy>, p: nat, now: real)
    requires row.task.status == Running && row.task.lockedBy == Some(ids(p))
    requires p in busy && busy[p].id == t && busy[p].attempts < busy[p].maxAttempts
    ensures Next(ids, lease, System(map[t := row], busy), Settle(p, false, "boom", now))
         == System(map[t := Apply(lease, row, Retried(ids(p), "boom"))], busy - {p})
  {
    assert Owned(map[t := row], t, ids(p));
    assert map[t := row][t := Apply(lease, row, Retried(ids(p), "boom"))] == map[t := Apply(lease, row, Retried(ids(p), "boom"))];
  }

  lemma NotBounded(tb: Table, t: TaskId)
    requires t in tb && tb[t].task.status == Queued && tb[t].task.attempts == tb[t].task.spec.maxAttempts
    ensures !Bounded(tb)
  {
  }

  lemma NamesakesBreakTheBound(ids: nat -> WorkerId, lease: real, p: nat, q: nat)
    requires p != q && ids(p) == ids(q)
    ensures After(ids, lease, NamesakeRun(lease, p, q)).Some?
    ensures !Bounded(After(ids, lease, NamesakeRun(lease, p, q)).value.table)
  {
    var run, busy := NamesakeRun(lease, p, q), map[p := Copy("t", 1, 2), q := Copy("t", 2, 2)];
    var row := NamesakesShareTheLock(ids, lease, p, q);
    assert run[..5] == run && run[4] == Settle(p, false, "boom", lease + 2.0);
    hide After, Next, Bounded, NamesakeRun;
    AfterPrefix(ids, lease, run, 4);
    OneRowRetry(ids, lease, "t", row, busy, p, lease + 2.0);
    NotBounded(map["t" := Apply(lease, row, Retried(ids(p), "boom"))], "t");
  }

  /** Every run of the runners keeps the retry bound if and only if their worker ids differ.
      TaskRunner's default id is the constant "worker", so the condition is the caller's to meet. */
  lemma RetryBound(ids: nat -> WorkerId, lease: real)
    ensures RetriesAreBounded(ids, lease) <==> DistinctIds(ids)
  {
    if DistinctIds(ids) {
      forall run | After(ids, lease, run).Some? ensures Bounded(After(ids, lease, run).value.table) {
        RunKeepsInv(ids, lease, run);
        var s := After(ids, lease, run).value;
        forall t | t in s.table
          ensures s.table[t].task.attempts <= s.table[t].task.spec.maxAttempts
          ensures s.table[t].task.status == Queued ==> s.table[t].task.attempts < s.table[t].task.spec.maxAttempts
        {
          assert RowInv(ids, s, t);
        }
      }
    } else {
      var p: nat, q: nat :| ids(p) == ids(q) && p != q;
      NamesakesBreakTheBound(ids, lease, p, q);
    }
  }

  // ---------- the bound under any calls ----------

  predicate RowBounded(row: Row) {
    && row.task.attempts <= row.task.spec.maxAttempts
    && (row.task.status == Queued ==> row.task.attempts < row.task.spec.maxAttempts)
  }

  /** The calls that put a task without attempts into the queue: a retry by its holder, the
      resumption of a paused task, and the insertion of a task that may never be tried. */
  ghost predicate BreaksBound(tb: Table, op: Op) {
    match op
    case Retry(t, w, _) => Owned(tb, t, w) && tb[t].task.attempts >= tb[t].task.spec.maxAttempts
    case Resume(t) => t in tb && tb[t].task.status == Paused && tb[t].task.attempts >= tb[t].task.spec.maxAttempts
    case Enqueue(spec) => spec.id !in tb && !KeyTaken(tb, spec.key) && spec.maxAttempts < 1
    case _ => false
  }

  lemma EffectKeepsBoundIff(lease: real, row: Row, e: Effect)
    requires RowBounded(row) && Enabled(Some(row), e)
    ensures RowBounded(Apply(lease, row, e)) <==> !((e.Retried? || e.Resumed?) && row.task.attempts >= row.task.spec.maxAttempts)
  {
  }

  lemma RowKeepsBound(lease: real, tb: Table, op: Op, t: TaskId)
    requires ValidTable(tb) && Bounded(tb) && !BreaksBound(tb, op)
    ensures t in Step(lease, tb, op).0 ==> RowBounded(Step(lease, tb, op).0[t])
  {
    StepByEffects(lease, tb, op, t);
    EffectIsEnabled(tb, op, t);
    if t in tb && EffectOn(tb, op, t).Some? {
      EffectKeepsBoundIff(lease, tb[t], EffectOn(tb, op, t).value);
    }
    hide Step, Apply;
  }

  lemma BreakingLosesBound(lease: real, tb: Table, op: Op)
    requires ValidTable(tb) && Bounded(tb) && BreaksBound(tb, op)
    ensures !Bounded(Step(lease, tb, op).0)
  {
    var t := if op.Enqueue? then op.spec.id else op.id;
    StepByEffects(lease, tb, op, t);
    if !op.Enqueue? {
      EffectKeepsBoundIff(lease, tb[t], EffectOn(tb, op, t).value);
    }
    hide Step, Apply;
  }

  lemma LastCallKeepsBoundIff(lease: real, before: seq<Op>, op: Op)
    requires Bounded(Exec(lease, before))
    ensures Bounded(Step(lease, Exec(lease, before), op).0) <==> !BreaksBound(Exec(lease, before), op)
  {
    var tb := Exec(lease, before);
    ExecIsValid(lease, before);
    hide Exec, Step, BreaksBound;
    if BreaksBound(tb, op) {
      BreakingLosesBound(lease, tb, op);
    } else {
      forall t | t in Step(lease, tb, op).0
        ensures RowBounded(Step(lease, tb, op).0[t])
      {
        RowKeepsBound(lease, tb, op, t);
      }
    }
  }

  /** Every state that the calls go through keeps the bound. */
  ghost predicate AlwaysBounded(lease: real, ops: seq<Op>) {
    Bounded(Exec(lease, ops)) && (ops == [] || AlwaysBounded(lease, ops[..|ops| - 1]))
  }

  ghost predicate NoneBreaksBound(lease: real, ops: seq<Op>) {
    ops == []
    || (NoneBreaksBound(lease, ops[..|ops| - 1]) && !BreaksBound(Exec(lease, ops[..|ops| - 1]), ops[|ops| - 1]))
  }

  /** Whatever callers do, every state of a run keeps the bound iff no call of it is one of those
      three: so cancelling and pausing are safe, and direct retries and resumptions are safe
      exactly while attempts are left. */
  lemma {:induction false} BoundUnderAnyCalls(lease: real, ops: seq<Op>)
    ensures AlwaysBounded(lease, ops) <==> NoneBreaksBound(lease, ops)
  {
    if ops != [] {
      var before, op := ops[..|ops| - 1], ops[|ops| - 1];
      BoundUnderAnyCalls(lease, before);
      assert Exec(lease, ops) == Step(lease, Exec(lease, before), op).0;
      hide Step, Bounded, BreaksBound;
      if AlwaysBounded(lease, before) {
        LastCallKeepsBoundIff(lease, before, op);
      }
    }
  }

  lemma ClaimedOnce(lease: real, spec: TaskSpec, w: WorkerId, now: real)
    ensures Exec(lease, [Enqueue(spec), Claim(w, now, {})])
         == map[spec.id := Apply(lease, Row(NewTask(spec), None), Claimed(w, now))]
  {
    var ops, row := [Enqueue(spec), Claim(w, now, {})], Row(NewTask(spec), None);
    assert ops[..1][..0] == [] && ops[..1] == [Enqueue(spec)];
    assert Exec(lease, ops[..1]) == map[spec.id := row];
    OneRowClaim(lease, spec.id, row, w, now);
  }

  /** Pausing and resuming a task that is at its only attempt is enough to break the bound. */
  lemma ResumingBreaksTheBound(lease: real, spec: TaskSpec, w: WorkerId, now: real)
    requires spec.maxAttempts == 1
    ensures !Bounded(Exec(lease, [Enqueue(spec), Claim(w, now, {}), Pause(spec.id, w), Resume(spec.id)]))
  {
    var ops := [Enqueue(spec), Claim(w, now, {}), Pause(spec.id, w), Resume(spec.id)];
    var running := Apply(lease, Row(NewTask(spec), None), Claimed(w, now));
    assert ops[..2] == [Enqueue(spec), Claim(w, now, {})] && ops[..3][..2] == ops[..2] && ops[..4] == ops && ops[..4][..3] == ops[..3];
    ClaimedOnce(lease, spec, w, now);
    assert Owned(map[spec.id := running], spec.id, w);
    assert Exec(lease, ops[..3]) == map[spec.id := Apply(lease, running, Pausing(w))];
    LastCallKeepsBoundIff(lease, ops[..3], Resume(spec.id));
  }

  // ---------- termination ----------

  /** The potential of a row: two per attempt left, one more while running, none when finished. */
  function Potential(task: Task): int {
    match task.status
    case Queued => 2 * (task.spec.maxAttempts - task.attempts)
    case Running => 2 * (task.spec.maxAttempts - task.attempts) + 1
    case _ => 0
  }

  predicate IsChange(e: Effect) { !e.Created? && !e.Beat? }

  function Changes(h: seq<Effect>): nat {
    if h == [] then 0 else Changes(h[..|h| - 1]) + if IsChange(h[|h| - 1]) then 1 else 0
  }

  lemma EffectLowersPotential(lease: real, row: Row, e: Effect)
    requires Enabled(Some(row), e) && (ByRunner(e) || e.Beat?)
    requires 0 <= row.task.attempts <= row.task.spec.maxAttempts
    requires row.task.status == Queued ==> row.task.attempts < row.task.spec.maxAttempts
    ensures var after := Apply(lease, row, e).task;
      && 0 <= Potential(after) && after.spec == row.task.spec
      && (if IsChange(e) then Potential(after) < Potential(row.task) else Potential(after) == Potential(row.task))
  {
  }

  /** Every change that a runner or a reaper makes to a task lowers the task's potential. */
  lemma ChangeLowersPotential(ids: nat -> WorkerId, lease: real, s: System, rop: RunnerOp, t: TaskId)
    requires DistinctIds(ids) && Inv(ids, s) && Allowed(s, rop)
    ensures t in s.table ==>
      var e := EffectOn(s.table, Translate(ids, s, rop), t);
      var after := Next(ids, lease, s, rop).table;
      && t in after && 0 <= Potential(after[t].task)
      && (e.Some? && IsChange(e.value) ==> Potential(after[t].task) < Potential(s.table[t].task))
      && (e.None? || !IsChange(e.value) ==> Potential(after[t].task) == Potential(s.table[t].task))
      && after[t].task.spec == s.table[t].task.spec
  {
    var op := Translate(ids, s, rop);
    var e := EffectOn(s.table, op, t);
    assert RowInv(ids, s, t);
    assert Next(ids, lease, s, rop).table == Step(lease, s.table, op).0;
    StepByEffects(lease, s.table, op, t);
    if t in s.table && e.Some? {
      EffectIsEnabled(s.table, op, t);
      assert ByRunner(e.value) || e.value.Beat?;
      EffectLowersPotential(lease, s.table[t], e.value);
    }
    hide Next, Step, EffectOn, Potential, IsChange, Apply;
  }

  lemma HistoryExtends(lease: real, calls: seq<Op>, op: Op, t: TaskId)
    ensures var e := EffectOn(Exec(lease, calls), op, t);
      Changes(History(lease, calls + [op], t))
        == Changes(History(lease, calls, t)) + if e.Some? && IsChange(e.value) then 1 else 0
  {
    var e, h := EffectOn(Exec(lease, calls), op, t), History(lease, calls, t);
    assert (calls + [op])[..|calls|] == calls;
    if e.Some? {
      assert (h + [e.value])[..|h|] == h;
    }
  }

  lemma FirstEffect(lease: real, calls: seq<Op>, op: Op, t: TaskId)
    requires t !in Exec(lease, calls) && t in Step(lease, Exec(lease, calls), op).0
    ensures Changes(History(lease, calls, t)) == 0
    ensures op.Enqueue? && EffectOn(Exec(lease, calls), op, t) == Some(Created(op.spec))
    ensures Step(lease, Exec(lease, calls), op).0[t].task == NewTask(op.spec)
  {
    ExecIsValid(lease, calls);
    HistoryExplainsRow(lease, calls, t);
    StepByEffects(lease, Exec(lease, calls), op, t);
    if History(lease, calls, t) != [] {
      HolderOfLegal(lease, History(lease, calls, t), "");
    }
  }

  /** In every run a task is changed at most 2 * max_attempts times, heartbeats aside, and
      what is left of that allowance is at least its current potential. */
  lemma {:induction false} ChangesAreBounded(ids: nat -> WorkerId, lease: real, run: seq<RunnerOp>, t: TaskId)
    requires DistinctIds(ids) && After(ids, lease, run).Some? && t in After(ids, lease, run).value.table
    ensures var task := After(ids, lease, run).value.table[t].task;
      && 0 <= Potential(task)
      && Changes(History(lease, Calls(ids, lease, run), t)) + Potential(task) <= 2 * task.spec.maxAttempts
  {
    var before := run[..|run| - 1];
    var s, rop := After(ids, lease, before).value, run[|run| - 1];
    var op, calls := Translate(ids, s, rop), Calls(ids, lease, before);
    RunKeepsInv(ids, lease, before);
    RunIsExec(ids, lease, before);
    HistoryExtends(lease, calls, op, t);
    if t in s.table {
      ChangesAreBounded(ids, lease, before, t);
      ChangeLowersPotential(ids, lease, s, rop, t);
    } else {
      FirstEffect(lease, calls, op, t);
    }
  }

  // ---------- sums over a fixed set of tasks ----------

  ghost function TotalChanges(ids: nat -> WorkerId, lease: real, run: seq<RunnerOp>, tasks: seq<TaskId>): nat
    requires After(ids, lease, run).Some?
  {
    if tasks == [] then 0
    else Changes(History(lease, Calls(ids, lease, run), tasks[0])) + TotalChanges(ids, lease, run, tasks[1..])
  }

  function TotalAttempts(tb: Table, tasks: seq<TaskId>): int
    requires forall t :: t in tasks ==> t in tb
  {
    if tasks == [] then 0 else tb[tasks[0]].task.spec.maxAttempts + TotalAttempts(tb, tasks[1..])
  }

  /** Termination: runners and reapers make at most 2 * sum(max_attempts) changes in all. */
  lemma {:induction false} RunsTerminate(ids: nat -> WorkerId, lease: real, run: seq<RunnerOp>, tasks: seq<TaskId>)
    requires DistinctIds(ids) && After(ids, lease, run).Some?
    requires forall t :: t in tasks ==> t in After(ids, lease, run).value.table
    ensures TotalChanges(ids, lease, run, tasks) <= 2 * TotalAttempts(After(ids, lease, run).value.table, tasks)
  {
    if tasks != [] {
      ChangesAreBounded(ids, lease, run, tasks[0]);
      RunsTerminate(ids, lease, run, tasks[1..]);
    }
  }

  predicate Unfinished(s: System, t: TaskId) {
    t in s.table && s.table[t].task.status in {Queued, Running}
  }

  ghost predicate CanChange(ids: nat -> WorkerId, s: System, rop: RunnerOp, t: TaskId) {
    && Allowed(s, rop) && t in s.table
    && EffectOn(s.table, Translate(ids, s, rop), t).Some?
    && IsChange(EffectOn(s.table, Translate(ids, s, rop), t).value)
  }

  lemma {:induction false} SomeNumberIsFree(taken: set<nat>, from: nat) returns (p: nat)
    ensures p >= from && p !in taken
    decreases |taken|
  {
    if from !in taken {
      p := from;
    } else {
      p := SomeNumberIsFree(taken - {from}, from + 1);
    }
  }

  /** Progress: some runner or reaper can change some task exactly while a task is unfinished.
      With the bound on changes, the work of a finite set of tasks always gets done. */
  lemma ProgressUntilFinished(ids: nat -> WorkerId, lease: real, s: System)
    requires DistinctIds(ids) && Inv(ids, s)
    ensures (exists t :: Unfinished(s, t)) <==> (exists rop, t :: CanChange(ids, s, rop, t))
  {
    if t :| Unfinished(s, t) {
      assert RowInv(ids, s, t);
      if s.table[t].task.status == Queued {
        var p := SomeNumberIsFree(s.busy.Keys, 0);
        var among := set u | u in s.table && Claimable(s.table, {}, u);
        assert t in among;
        var u := NextExists(s.table, {}, among);
        assert CanChange(ids, s, Start(p, 0.0, {}), u);
      } else {
        var now := s.table[t].lease.value + 1.0;
        var rop := if s.table[t].task.attempts < s.table[t].task.spec.maxAttempts then SweepRequeue(now) else SweepTimeOut(now);
        assert CanChange(ids, s, rop, t);
      }
    }
    forall rop, t | CanChange(ids, s, rop, t) ensures Unfinished(s, t) {
      assert RowInv(ids, s, t);
    }
  }
}
