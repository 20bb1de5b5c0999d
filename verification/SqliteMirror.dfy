/** The SQLite side of TaskQueue: after every operation the database rows are the tasks in
    memory, and reopening the database restores the queue, up to two odd column values. */
module SqliteMirror {
  import opened Tasks
  import opened AuditChain
  import opened LocalQueue

  /** Every row equals the task in memory and the idempotency table equals the index. */
  ghost predicate Mirrored(s: QueueState) {
    s.db.Some? ==> s.db.value.rows == s.tasks && s.db.value.idem == s.index
  }

  lemma PutKeeps(secretLike: string -> bool, s: QueueState, task: Task, entry: Entry)
    requires WellFormed(s) && Mirrored(s) && task.spec.id in s.tasks && task.spec == s.tasks[task.spec.id].spec
    ensures var s' := Put(secretLike, s, task, entry);
      WellFormed(s') && Mirrored(s')
  {
  }

  lemma EnqueueKeeps(secretLike: string -> bool, s: QueueState, spec: TaskSpec)
    requires WellFormed(s) && Mirrored(s)
    ensures var s' := LocalStep(secretLike, s, Enqueue(spec)).0;
      WellFormed(s') && Mirrored(s')
  {
    assert forall t :: t in s.order + [spec.id] <==> t in s.order || t == spec.id;
  }

  /** The calls other than enqueue change nothing, or put one task back under its own columns. */
  lemma CallIsPut(secretLike: string -> bool, s: QueueState, op: Op)
    requires WellFormed(s) && !op.Enqueue?
    ensures var (s', outcome) := LocalStep(secretLike, s, op);
      if outcome.Returned? then
        && outcome.task.spec.id in s.tasks && outcome.task.spec == s.tasks[outcome.task.spec.id].spec
        && exists entry :: s' == Put(secretLike, s, outcome.task, entry)
      else s' == s
  {
    if op.Claim? {
      FirstQueuedIsQueued(s.tasks, s.order);
    }
  }

  lemma {:induction false} WatchKeeps(secretLike: string -> bool, s: QueueState, ids: seq<TaskId>, now: real)
    requires WellFormed(s) && Mirrored(s)
    ensures var s' := Watch(secretLike, s, ids, now);
      WellFormed(s') && Mirrored(s')
    decreases ids
  {
    if ids != [] {
      var t := ids[0];
      if t in s.tasks && TimesOut(s.tasks[t], now) {
        var reason := TimeoutReason(s.tasks[t], now);
        var task := FinishedTask(s.tasks[t], TimedOut, now).(failureReason := reason);
        PutKeeps(secretLike, s, task, TimedOutEntry(task, reason.value));
      }
      WatchKeeps(secretLike, WatchOne(secretLike, s, t, now), ids[1..], now);
    }
  }

  lemma NextKeeps(secretLike: string -> bool, s: QueueState, lop: LocalOp)
    requires WellFormed(s) && Mirrored(s)
    ensures WellFormed(LocalNext(secretLike, s, lop)) && Mirrored(LocalNext(secretLike, s, lop))
  {
    match lop
    case Call(op) =>
      if op.Enqueue? {
        EnqueueKeeps(secretLike, s, op.spec);
      } else {
        CallIsPut(secretLike, s, op);
        var (s', outcome) := LocalStep(secretLike, s, op);
        if outcome.Returned? {
          var entry :| s' == Put(secretLike, s, outcome.task, entry);
          PutKeeps(secretLike, s, outcome.task, entry);
        }
      }
    case Check(now) => WatchKeeps(secretLike, s, s.order, now);
    case Note(_) =>
  }

  /** The mirror is exact after every call and every watchdog check of every run. */
  lemma {:induction false} RunIsMirrored(secretLike: string -> bool, persistent: bool, run: seq<LocalOp>)
    ensures var s := LocalRun(secretLike, if persistent then Some(Mirror(map[], map[])) else None, run);
      WellFormed(s) && Mirrored(s)
  {
    if run != [] {
      var db := if persistent then Some(Mirror(map[], map[])) else None;
      RunIsMirrored(secretLike, persistent, run[..|run| - 1]);
      NextKeeps(secretLike, LocalRun(secretLike, db, run[..|run| - 1]), run[|run| - 1]);
    }
  }

  // ---------- reopening ----------

  const NONE_TEXT := "None"

  /** `_load_tasks`: a worker called "None" reads as no worker, and a zero time as the current one. */
  function LoadedTask(row: Task, now: real): Task {
    row.(lockedBy := if row.lockedBy == Some(NONE_TEXT) then None else row.lockedBy,
         spec := row.spec.(enqueuedAt := if row.spec.enqueuedAt == 0.0 then now else row.spec.enqueuedAt))
  }

  function Ids(rows: seq<Task>): seq<TaskId> {
    if rows == [] then [] else Ids(rows[..|rows| - 1]) + [rows[|rows| - 1].spec.id]
  }

  function LoadedTasks(rows: seq<Task>, now: real): map<TaskId, Task> {
    if rows == [] then map[]
    else
      var task := LoadedTask(rows[|rows| - 1], now);
      LoadedTasks(rows[..|rows| - 1], now)[task.spec.id := task]
  }

  /** A queue opened on `db`, whose SELECT returned `rows`. */
  function Reload(rows: seq<Task>, db: Mirror, now: real): QueueState {
    QueueState(LoadedTasks(rows, now), Ids(rows), db.idem, Some(db), [])
  }

  ghost predicate Lists(rows: seq<Task>, t: TaskId) {
    exists i :: 0 <= i < |rows| && rows[i].spec.id == t
  }

  ghost predicate SortedOnce(rows: seq<Task>) {
    forall i, j :: 0 <= i < j < |rows| ==>
      rows[i].spec.id != rows[j].spec.id && rows[i].spec.enqueuedAt <= rows[j].spec.enqueuedAt
  }

  /** SELECT * FROM tasks ORDER BY enqueued_at: all rows once, ties in any order. */
  ghost predicate IsSelection(rows: seq<Task>, table: map<TaskId, Task>) {
    && SortedOnce(rows)
    && (forall i :: 0 <= i < |rows| ==> rows[i].spec.id in table && table[rows[i].spec.id] == rows[i])
    && (forall t :: t in table ==> Lists(rows, t))
  }

  lemma {:induction false} LoadedAt(rows: seq<Task>, now: real, i: nat)
    requires SortedOnce(rows) && i < |rows|
    ensures |Ids(rows)| == |rows| && Ids(rows)[i] == rows[i].spec.id
    ensures rows[i].spec.id in LoadedTasks(rows, now)
    ensures LoadedTasks(rows, now)[rows[i].spec.id] == LoadedTask(rows[i], now)
  {
    var before := rows[..|rows| - 1];
    if before != [] {
      LoadedAt(before, now, if i < |before| then i else 0);
    }
  }

  lemma {:induction false} LoadedKeys(rows: seq<Task>, now: real, t: TaskId)
    ensures t in LoadedTasks(rows, now) <==> Lists(rows, t)
    ensures t in Ids(rows) <==> Lists(rows, t)
  {
    if rows != [] {
      var before, last := rows[..|rows| - 1], rows[|rows| - 1].spec.id;
      LoadedKeys(before, now, t);
      if Lists(before, t) {
        var i :| 0 <= i < |before| && before[i].spec.id == t;
        assert rows[i].spec.id == t;
      }
      if Lists(rows, t) && t != last {
        var i :| 0 <= i < |rows| && rows[i].spec.id == t;
        assert before[i].spec.id == t;
      }
      assert t == last ==> rows[|rows| - 1].spec.id == t;
    }
  }

  /** The values that survive a close and reopen. */
  predicate Survives(task: Task, now: real) {
    task.lockedBy != Some(NONE_TEXT) && (task.spec.enqueuedAt != 0.0 || now == 0.0)
  }

  lemma LoadedRow(rows: seq<Task>, table: map<TaskId, Task>, now: real, t: TaskId)
    requires IsSelection(rows, table)
    ensures t in LoadedTasks(rows, now) <==> t in table
    ensures t in table ==> LoadedTasks(rows, now)[t] == LoadedTask(table[t], now)
  {
    LoadedKeys(rows, now, t);
    if Lists(rows, t) {
      var i :| 0 <= i < |rows| && rows[i].spec.id == t;
      LoadedAt(rows, now, i);
    }
  }

  /** Reopening restores the tasks and the index exactly when no worker is called "None" and no
      task was enqueued at time zero. */
  lemma ReloadRestoresIff(s: QueueState, rows: seq<Task>, now: real)
    requires Mirrored(s) && s.db.Some? && IsSelection(rows, s.db.value.rows)
    ensures Reload(rows, s.db.value, now).index == s.index
    ensures Reload(rows, s.db.value, now).tasks == s.tasks <==> forall t :: t in s.tasks ==> Survives(s.tasks[t], now)
  {
    var loaded := LoadedTasks(rows, now);
    forall t ensures t in loaded <==> t in s.tasks
             ensures t in s.tasks ==> (loaded[t] == s.tasks[t] <==> Survives(s.tasks[t], now))
    {
      LoadedRow(rows, s.tasks, now, t);
    }
    if forall t :: t in s.tasks ==> Survives(s.tasks[t], now) {
      assert loaded == s.tasks;
    }
  }

  /** The list is in strictly increasing order of enqueue times. */
  ghost predicate StrictByTime(s: QueueState) {
    forall i, j :: 0 <= i < j < |s.order| && s.order[i] in s.tasks && s.order[j] in s.tasks ==>
      s.tasks[s.order[i]].spec.enqueuedAt < s.tasks[s.order[j]].spec.enqueuedAt
  }

  lemma FirstIsIn(a: seq<TaskId>)
    requires a != []
    ensures exists t :: t in a
  {
    assert a[0] in a;
  }

  lemma TailHas(a: seq<TaskId>, t: TaskId)
    requires a != [] && forall i :: 0 < i < |a| ==> a[i] != a[0]
    ensures t in a[1..] <==> t in a && t != a[0]
  {
    assert a == [a[0]] + a[1..];
    if t in a[1..] {
      var i :| 0 <= i < |a[1..]| && a[1..][i] == t;
      assert a[i + 1] == t;
    }
  }

  /** Two lists of the same elements without repetition, both sorted by `time`, one strictly. */
  lemma {:induction false} StrictSortIsUnique(a: seq<TaskId>, b: seq<TaskId>, time: map<TaskId, real>)
    requires forall t :: t in a <==> t in b
    requires forall t :: t in a ==> t in time
    requires forall i, j :: 0 <= i < j < |a| ==> time[a[i]] < time[a[j]]
    requires forall i, j :: 0 <= i < j < |b| ==> b[i] != b[j] && time[b[i]] <= time[b[j]]
    ensures a == b
  {
    if b != [] {
      FirstIsIn(b);
    }
    if a != [] {
      FirstIsIn(a);
      assert a[0] in b && b[0] in a;
      FirstsAgree(a, b, time);
      forall t
        ensures t in a[1..] <==> t in b[1..]
      {
        TailHas(a, t);
        TailHas(b, t);
      }
      StrictSortIsUnique(a[1..], b[1..], time);
      assert a == [a[0]] + a[1..] && b == [b[0]] + b[1..];
    }
  }

  lemma FirstsAgree(a: seq<TaskId>, b: seq<TaskId>, time: map<TaskId, real>)
    requires a != [] && b != [] && a[0] in b && b[0] in a && forall t :: t in a || t in b ==> t in time
    requires forall i :: 0 < i < |a| ==> time[a[0]] < time[a[i]]
    requires forall i :: 0 < i < |b| ==> time[b[0]] <= time[b[i]]
    ensures a[0] == b[0]
  {
    var i :| 0 <= i < |a| && a[i] == b[0];
    var j :| 0 <= j < |b| && b[j] == a[0];
  }

  lemma IdsAreSorted(rows: seq<Task>, table: map<TaskId, Task>)
    requires IsSelection(rows, table)
    ensures |Ids(rows)| == |rows|
    ensures forall i :: 0 <= i < |rows| ==> Ids(rows)[i] == rows[i].spec.id
  {
    forall i | 0 <= i < |rows| ensures |Ids(rows)| == |rows| && Ids(rows)[i] == rows[i].spec.id {
      LoadedAt(rows, 0.0, i);
    }
  }

  /** With distinct, increasing enqueue times every reopening also restores the order. */
  lemma ReloadRestoresOrder(s: QueueState, rows: seq<Task>, now: real)
    requires WellFormed(s) && Mirrored(s) && s.db.Some? && IsSelection(rows, s.db.value.rows) && StrictByTime(s)
    ensures Reload(rows, s.db.value, now).order == s.order
  {
    var time := map t | t in s.tasks :: s.tasks[t].spec.enqueuedAt;
    IdsAreSorted(rows, s.tasks);
    forall t ensures t in s.order <==> t in Ids(rows) {
      LoadedKeys(rows, now, t);
      if Lists(rows, t) {
        var i :| 0 <= i < |rows| && rows[i].spec.id == t;
      }
    }
    forall i, j | 0 <= i < j < |s.order| ensures time[s.order[i]] < time[s.order[j]] {
      assert s.order[i] in s.order && s.order[j] in s.order;
    }
    StrictSortIsUnique(s.order, Ids(rows), time);
  }

  function SwapAt(rows: seq<Task>, i: nat): (other: seq<Task>)
    requires i + 1 < |rows|
    ensures |other| == |rows|
    ensures forall k :: 0 <= k < |rows| ==> other[k] == rows[if k == i then i + 1 else if k == i + 1 then i else k]
  {
    rows[i := rows[i + 1]][i + 1 := rows[i]]
  }

  lemma SwapKeepsSortedOnce(rows: seq<Task>, i: nat)
    requires SortedOnce(rows) && i + 1 < |rows| && rows[i].spec.enqueuedAt == rows[i + 1].spec.enqueuedAt
    ensures SortedOnce(SwapAt(rows, i))
  {
    hide SwapAt;
  }

  lemma SwapKeepsLists(rows: seq<Task>, i: nat, t: TaskId)
    requires i + 1 < |rows| && Lists(rows, t)
    ensures Lists(SwapAt(rows, i), t)
  {
    var k :| 0 <= k < |rows| && rows[k].spec.id == t;
    assert SwapAt(rows, i)[if k == i then i + 1 else if k == i + 1 then i else k].spec.id == t;
  }

  lemma SwapIsSelection(rows: seq<Task>, table: map<TaskId, Task>, i: nat)
    requires IsSelection(rows, table)
    requires i + 1 < |rows| && rows[i].spec.enqueuedAt == rows[i + 1].spec.enqueuedAt
    ensures IsSelection(SwapAt(rows, i), table)
  {
    SwapKeepsSortedOnce(rows, i);
    forall t | t in table
      ensures Lists(SwapAt(rows, i), t)
    {
      SwapKeepsLists(rows, i, t);
    }
    hide SwapAt, Lists, SortedOnce;
  }

  /** A tie loses the order: if two neighbours of the SELECT share their enqueue time, another
      equally good answer reopens with the two swapped. */
  lemma TieLosesOrder(rows: seq<Task>, db: Mirror, i: nat, now: real)
    requires IsSelection(rows, db.rows)
    requires i + 1 < |rows| && rows[i].spec.enqueuedAt == rows[i + 1].spec.enqueuedAt
    ensures IsSelection(SwapAt(rows, i), db.rows)
    ensures Reload(SwapAt(rows, i), db, now).order != Reload(rows, db, now).order
  {
    SwapIsSelection(rows, db.rows, i);
    LoadedAt(rows, now, i);
    LoadedAt(SwapAt(rows, i), now, i);
    assert rows[i].spec.id != rows[i + 1].spec.id;
    hide IsSelection, LoadedTasks;
  }

  // ---------- when the order is restored ----------

  lemma {:induction false} LatestOf(table: map<TaskId, Task>, among: set<TaskId>) returns (t: TaskId)
    requires among != {} && among <= table.Keys
    ensures t in among && forall u :: u in among ==> table[u].spec.enqueuedAt <= table[t].spec.enqueuedAt
    decreases |among|
  {
    var x :| x in among;
    if among == {x} {
      t := x;
    } else {
      var y := LatestOf(table, among - {x});
      t := if table[x].spec.enqueuedAt > table[y].spec.enqueuedAt then x else y;
    }
  }

  /** The rows of some of the tasks, as a SELECT over them alone might give them. */
  ghost predicate Selects(rows: seq<Task>, table: map<TaskId, Task>, among: set<TaskId>) {
    && SortedOnce(rows)
    && (forall i :: 0 <= i < |rows| ==> rows[i].spec.id in among && rows[i].spec.id in table && table[rows[i].spec.id] == rows[i])
    && (forall t :: t in among ==> Lists(rows, t))
  }

  lemma ListsAppend(rows: seq<Task>, row: Task, t: TaskId)
    ensures Lists(rows + [row], t) <==> Lists(rows, t) || row.spec.id == t
  {
    if Lists(rows, t) {
      var i :| 0 <= i < |rows| && rows[i].spec.id == t;
      assert (rows + [row])[i].spec.id == t;
    }
    if row.spec.id == t {
      assert (rows + [row])[|rows|].spec.id == t;
    }
  }

  lemma SelectsOneMore(rows: seq<Task>, table: map<TaskId, Task>, among: set<TaskId>, t: TaskId)
    requires t in among && t in table && table[t].spec.id == t && Selects(rows, table, among - {t})
    requires forall u :: u in among ==> u in table && table[u].spec.enqueuedAt <= table[t].spec.enqueuedAt
    ensures Selects(rows + [table[t]], table, among)
  {
    forall u | u in among
      ensures Lists(rows + [table[t]], u)
    {
      ListsAppend(rows, table[t], u);
    }
  }

  /** Every table has a SELECT: the latest row last, and the others before it. */
  lemma {:induction false} SomeSelection(table: map<TaskId, Task>, among: set<TaskId>) returns (rows: seq<Task>)
    requires among <= table.Keys && forall t :: t in table ==> table[t].spec.id == t
    ensures Selects(rows, table, among)
    decreases |among|
  {
    if among == {} {
      rows := [];
    } else {
      var t := LatestOf(table, among);
      rows := SomeSelection(table, among - {t});
      SelectsOneMore(rows, table, among, t);
      rows := rows + [table[t]];
    }
  }

  /** Whatever the SELECT answers, reopening gives back the order of the list. */
  ghost predicate OrderSurvives(s: QueueState, now: real)
    requires s.db.Some?
  {
    forall rows :: IsSelection(rows, s.db.value.rows) ==> Reload(rows, s.db.value, now).order == s.order
  }

  /** A sorted list that is not strictly sorted has two equal neighbours. */
  lemma {:induction false} TiedNeighbours(rows: seq<Task>, i: nat, j: nat) returns (k: nat)
    requires SortedOnce(rows) && i < j < |rows| && rows[i].spec.enqueuedAt >= rows[j].spec.enqueuedAt
    ensures k + 1 < |rows| && rows[k].spec.enqueuedAt == rows[k + 1].spec.enqueuedAt
  {
    k := i;
    assert rows[i].spec.enqueuedAt <= rows[i + 1].spec.enqueuedAt;
    assert i + 1 < j ==> rows[i + 1].spec.enqueuedAt <= rows[j].spec.enqueuedAt;
  }

  lemma OrderOfSelection(s: QueueState, rows: seq<Task>, i: nat)
    requires Mirrored(s) && s.db.Some? && IsSelection(rows, s.db.value.rows) && Ids(rows) == s.order && i < |s.order|
    ensures |rows| == |s.order| && s.order[i] in s.tasks && s.tasks[s.order[i]] == rows[i]
  {
    IdsAreSorted(rows, s.tasks);
  }

  lemma UnsortedLosesOrder(s: QueueState, now: real, i: nat, j: nat)
    requires WellFormed(s) && Mirrored(s) && s.db.Some?
    requires i < j < |s.order| && s.order[i] in s.tasks && s.order[j] in s.tasks
    requires s.tasks[s.order[i]].spec.enqueuedAt >= s.tasks[s.order[j]].spec.enqueuedAt
    ensures !OrderSurvives(s, now)
  {
    var db := s.db.value;
    var rows := SomeSelection(s.tasks, s.tasks.Keys);
    assert IsSelection(rows, db.rows);
    if Ids(rows) == s.order {
      OrderOfSelection(s, rows, i);
      OrderOfSelection(s, rows, j);
      var k := TiedNeighbours(rows, i, j);
      TieLosesOrder(rows, db, k, now);
      assert IsSelection(SwapAt(rows, k), db.rows) && Reload(SwapAt(rows, k), db, now).order != s.order;
    } else {
      assert Reload(rows, db, now).order != s.order;
    }
  }

  /** Reopening restores the order iff enqueue times strictly increase along the list: a tie can
      lose it, and a clock that went back always does. */
  lemma OrderSurvivesIff(s: QueueState, now: real)
    requires WellFormed(s) && Mirrored(s) && s.db.Some?
    ensures OrderSurvives(s, now) <==> StrictByTime(s)
  {
    if StrictByTime(s) {
      forall rows | IsSelection(rows, s.db.value.rows)
        ensures Reload(rows, s.db.value, now).order == s.order
      {
        ReloadRestoresOrder(s, rows, now);
      }
    } else {
      var i, j :| 0 <= i < j < |s.order| && s.order[i] in s.tasks && s.order[j] in s.tasks
        && !(s.tasks[s.order[i]].spec.enqueuedAt < s.tasks[s.order[j]].spec.enqueuedAt);
      UnsortedLosesOrder(s, now, i, j);
    }
  }

  /** Where the clock went back between two enqueues, no reopening at all gives the order back. */
  lemma BackwardClockLosesOrder(s: QueueState, rows: seq<Task>, now: real, i: nat, j: nat)
    requires WellFormed(s) && Mirrored(s) && s.db.Some? && IsSelection(rows, s.db.value.rows)
    requires i < j < |s.order| && s.order[i] in s.tasks && s.order[j] in s.tasks
    requires s.tasks[s.order[i]].spec.enqueuedAt > s.tasks[s.order[j]].spec.enqueuedAt
    ensures Reload(rows, s.db.value, now).order != s.order
  {
    if Ids(rows) == s.order {
      OrderOfSelection(s, rows, i);
      OrderOfSelection(s, rows, j);
    }
  }
}
