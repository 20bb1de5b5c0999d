/** The replayer: it rebuilds task states from an audit log, and for a log written by TaskQueue,
    Watchdog and TaskRunner what it rebuilds is compared with the live queue. */
module AuditReplay {
  import opened Tasks
  import opened AuditChain
  import opened LocalQueue
  import opened SqliteMirror

  type Info = map<string, Value>

  /** What the replayer makes of a task event. `Hidden` ones it does not know: they mark a status
      change of the live queue that leaves no trace in the replayed state. */
  datatype Kind = Fresh | Sets(status: string) | Hidden | Other

  function KindOf(eventType: string): Kind {
    if eventType == "task.enqueued" then Fresh
    else if eventType == "task.claimed" then Sets("running")
    else if eventType == "task.completed" then Sets("succeeded")
    else if eventType == "task.failed" then Sets("failed")
    else if eventType == "task.timed_out" then Sets("timed_out")
    else if eventType == "task.cancelled" then Sets("cancelled")
    else if eventType == "task.retry_scheduled" then Sets("retrying")
    else if eventType == "task.paused" || eventType == "task.resumed" then Hidden
    else Other
  }

  function TaskIdOf(payload: Info): Value {
    if "task_id" in payload then payload["task_id"] else Text("")
  }

  function ApplyEntry(tasks: map<Value, Info>, e: Entry): map<Value, Info> {
    if e.payload.None? then tasks
    else
      var id := TaskIdOf(e.payload.value);
      match KindOf(e.eventType)
      case Fresh => tasks[id := map["status" := Text("queued")] + e.payload.value]
      case Sets(status) => if id in tasks then tasks[id := tasks[id]["status" := Text(status)]] else tasks
      case _ => tasks
  }

  function Replayed(log: seq<Entry>): map<Value, Info> {
    if log == [] then map[] else ApplyEntry(Replayed(log[..|log| - 1]), log[|log| - 1])
  }

  /** `replay_records`, as far as tasks go: nothing is replayed from a log that fails verification. */
  method ReplayRecords(h: Hash, records: seq<AuditRecord>, verifyIntegrity: bool)
    returns (ok: bool, tasks: map<Value, Info>, errors: seq<Issue>)
    ensures ok <==> !verifyIntegrity || Chain(h, records)
    ensures ok ==> errors == [] && tasks == Replayed(EntriesOf(records))
    ensures !ok ==> errors != [] && tasks == map[]
  {
    tasks, errors := map[], [];
    if verifyIntegrity {
      errors := VerifyEventRecords(h, records);
      if errors != [] {
        return false, map[], errors;
      }
    }
    ok := true;
    var entries := EntriesOf(records);
    for i := 0 to |records|
      invariant tasks == Replayed(entries[..i])
    {
      var e := records[i].entry;
      assert entries[..i + 1] == entries[..i] + [e];
      assert entries[..i + 1][..i] == entries[..i];
      if e.payload.None? {
        continue;
      }
      var id := if "task_id" in e.payload.value then e.payload.value["task_id"] else Text("");
      var kind := KindOf(e.eventType);
      if kind == Fresh {
        tasks := tasks[id := map["status" := Text("queued")] + e.payload.value];
      } else if kind.Sets? && id in tasks {
        tasks := tasks[id := tasks[id]["status" := Text(kind.status)]];
      }
    }
    assert entries[..|records|] == entries;
  }

  // ---------- agreement with the live queue ----------

  /** The last event of task `t` that goes with a status change. */
  function LastMark(log: seq<Entry>, t: TaskId): Option<Kind> {
    if log == [] then None
    else
      var e := log[|log| - 1];
      if e.payload.Some? && TaskIdOf(e.payload.value) == Text(t) && KindOf(e.eventType) != Other
      then Some(KindOf(e.eventType))
      else LastMark(log[..|log| - 1], t)
  }

  /** The replayer is blind to `t`: its latest status change was a pause or a resumption. */
  predicate Blind(log: seq<Entry>, t: TaskId) {
    LastMark(log, t) == Some(Hidden)
  }

  /** "queued" and "retrying" both stand for a queued task. */
  predicate StandsFor(info: Info, status: TaskStatus) {
    "status" in info &&
    (info["status"] == Text(StatusText(status)) || (status == Queued && info["status"] == Text("retrying")))
  }

  ghost predicate Tracks(s: QueueState, t: TaskId) {
    var tasks := Replayed(s.log);
    && (t in s.tasks <==> Text(t) in tasks)
    && (t in s.tasks ==>
          if Blind(s.log, t) then
            s.tasks[t].status in {Queued, Paused} && "status" in tasks[Text(t)] && tasks[Text(t)]["status"] == Text("running")
          else StandsFor(tasks[Text(t)], s.tasks[t].status) && s.tasks[t].status != Paused)
  }

  /** How a status change and the event that announces it fit together. */
  predicate Announces(kind: Kind, before: Option<TaskStatus>, after: TaskStatus) {
    match kind
    case Fresh => after == Queued
    case Sets(text) => before.Some? && after != Paused && (text == StatusText(after) || (text == "retrying" && after == Queued))
    case Hidden => (before == Some(Running) && after == Paused) || (before == Some(Paused) && after == Queued)
    case Other => before == Some(after)
  }

  ghost predicate Unblocked(log: seq<Entry>) {
    forall i :: 0 <= i < |log| ==> log[i].eventType != BLOCKED
  }

  /** One update with one announcement keeps every task tracked. */
  lemma UpdateTracks(s: QueueState, s': QueueState, task: Task, e: Entry, t: TaskId)
    requires Tracks(s, t)
    requires s'.tasks == s.tasks[task.spec.id := task] && s'.log == s.log + [e]
    requires e.payload.Some? && TaskIdOf(e.payload.value) == Text(task.spec.id)
    requires KindOf(e.eventType) == Fresh ==> "status" !in e.payload.value
    requires Announces(KindOf(e.eventType),
                       if task.spec.id in s.tasks then Some(s.tasks[task.spec.id].status) else None, task.status)
    ensures Tracks(s', t)
  {
    assert s'.log[..|s'.log| - 1] == s.log;
  }

  /** The entry announces a change of `t` as an event of this kind. */
  predicate Describes(e: Entry, t: TaskId, kind: Kind) {
    && e.payload.Some? && TaskIdOf(e.payload.value) == Text(t) && KindOf(e.eventType) == kind
    && (kind == Fresh ==> "status" !in e.payload.value)
  }

  /** The event of each call, by the status it leads to. */
  function KindOfOp(op: Op): Kind {
    match op
    case Enqueue(_) => Fresh
    case Claim(_, _, _) => Sets("running")
    case Complete(_, _, _) => Sets("succeeded")
    case Fail(_, _, _, _) => Sets("failed")
    case Retry(_, _, _) => Sets("retrying")
    case Cancel(_, _, _) => Sets("cancelled")
    case Pause(_, _) => Hidden
    case Resume(_) => Hidden
    case _ => Other
  }

  function EntryOfOp(op: Op, task: Task): Entry {
    match op
    case Enqueue(spec) => EnqueuedEntry(spec)
    case Claim(w, _, _) => ClaimedEntry(task, w)
    case Heartbeat(t, w, _) => WorkerEntry("task.heartbeat", "Task heartbeat recorded", t, w)
    case Complete(t, w, _) => WorkerEntry("task.completed", "Task completed", t, w)
    case Fail(t, w, reason, _) => WorkerEntry("task.failed", reason, t, w)
    case Retry(t, w, reason) => RetriedEntry(task, w, reason)
    case Cancel(t, reason, _) => TaskEntry("task.cancelled", reason, t)
    case Pause(t, w) => WorkerEntry("task.paused", "Task paused", t, w)
    case Resume(t) => TaskEntry("task.resumed", "Task resumed", t)
    case _ => TaskEntry("", "", "")
  }

  lemma EntryDescribesOp(op: Op, task: Task)
    requires !op.ReapRequeue? && !op.ReapTimeOut?
    requires op.Claim? || (if op.Enqueue? then op.spec.id else op.id) == task.spec.id
    ensures Describes(EntryOfOp(op, task), task.spec.id, KindOfOp(op))
  {
  }

  predicate IsNew(s: QueueState, spec: TaskSpec) {
    !(Truthy(spec.key) && spec.key.value in s.index && s.index[spec.key.value] in s.tasks)
  }

  /** What every call does to tasks and log: an announced update, a bare entry, or nothing. */
  lemma CallAnnounces(secretLike: string -> bool, s: QueueState, op: Op)
    requires WellFormed(s)
    ensures var (s', outcome) := LocalStep(secretLike, s, op);
      if !outcome.Returned? then s'.tasks == s.tasks && s'.log == s.log
      else if op.Enqueue? && !IsNew(s, op.spec) then
        s'.tasks == s.tasks && s'.log == s.log + [Screened(secretLike, DeduplicatedEntry(outcome.task, op.spec.key))]
      else
        && s'.tasks == s.tasks[outcome.task.spec.id := outcome.task]
        && s'.log == s.log + [Screened(secretLike, EntryOfOp(op, outcome.task))]
        && (op.Claim? || (if op.Enqueue? then op.spec.id else op.id) == outcome.task.spec.id)
        && !op.ReapRequeue? && !op.ReapTimeOut?
  {
    if op.Claim? {
      FirstQueuedIsQueued(s.tasks, s.order);
    }
  }

  lemma CallIsAnnounced(secretLike: string -> bool, s: QueueState, op: Op)
    requires WellFormed(s)
    ensures var outcome := LocalStep(secretLike, s, op).1;
      outcome.Returned? && !(op.Enqueue? && !IsNew(s, op.spec)) ==>
        Announces(KindOfOp(op),
                  if outcome.task.spec.id in s.tasks then Some(s.tasks[outcome.task.spec.id].status) else None,
                  outcome.task.status)
  {
    if op.Claim? {
      FirstQueuedIsQueued(s.tasks, s.order);
    }
  }

  lemma BareEntryTracks(s: QueueState, s': QueueState, e: Entry, t: TaskId)
    requires Tracks(s, t) && s'.tasks == s.tasks && s'.log == s.log + [e] && KindOf(e.eventType) == Other
    ensures Tracks(s', t)
  {
    assert s'.log[..|s'.log| - 1] == s.log;
  }

  lemma UnblockedTail(log: seq<Entry>, secretLike: string -> bool, e: Entry)
    requires Unblocked(log + [Screened(secretLike, e)])
    ensures Screened(secretLike, e) == e && Unblocked(log)
  {
    var all := log + [Screened(secretLike, e)];
    assert all[|log|].eventType != BLOCKED;
    forall i | 0 <= i < |log| ensures log[i].eventType != BLOCKED {
      assert all[i] == log[i];
    }
  }

  lemma CallTracks(secretLike: string -> bool, s: QueueState, op: Op, t: TaskId)
    requires WellFormed(s) && Tracks(s, t) && Unblocked(LocalStep(secretLike, s, op).0.log)
    ensures Tracks(LocalStep(secretLike, s, op).0, t)
  {
    var (s', outcome) := LocalStep(secretLike, s, op);
    CallAnnounces(secretLike, s, op);
    CallIsAnnounced(secretLike, s, op);
    hide LocalStep;
    if outcome.Returned? {
      if op.Enqueue? && !IsNew(s, op.spec) {
        var e := DeduplicatedEntry(outcome.task, op.spec.key);
        UnblockedTail(s.log, secretLike, e);
        BareEntryTracks(s, s', e, t);
      } else {
        var e := EntryOfOp(op, outcome.task);
        UnblockedTail(s.log, secretLike, e);
        EntryDescribesOp(op, outcome.task);
        UpdateTracks(s, s', outcome.task, e, t);
      }
    }
  }

  lemma WatchOneTracks(secretLike: string -> bool, s: QueueState, u: TaskId, now: real, t: TaskId)
    requires WellFormed(s) && Tracks(s, t) && Unblocked(WatchOne(secretLike, s, u, now).log)
    ensures Tracks(WatchOne(secretLike, s, u, now), t)
  {
    if u in s.tasks && TimesOut(s.tasks[u], now) {
      var reason := TimeoutReason(s.tasks[u], now);
      var task := FinishedTask(s.tasks[u], TimedOut, now).(failureReason := reason);
      var e := TimedOutEntry(task, reason.value);
      UnblockedTail(s.log, secretLike, e);
      assert Describes(e, u, Sets("timed_out"));
      UpdateTracks(s, WatchOne(secretLike, s, u, now), task, e, t);
    }
  }

  lemma {:induction false} WatchGrowsLog(secretLike: string -> bool, s: QueueState, ids: seq<TaskId>, now: real)
    ensures s.log <= Watch(secretLike, s, ids, now).log
    decreases ids
  {
    if ids != [] {
      WatchGrowsLog(secretLike, WatchOne(secretLike, s, ids[0], now), ids[1..], now);
    }
  }

  lemma UnblockedPrefix(log: seq<Entry>, longer: seq<Entry>)
    requires Unblocked(longer) && log <= longer
    ensures Unblocked(log)
  {
  }

  lemma {:induction false} WatchTracks(secretLike: string -> bool, s: QueueState, ids: seq<TaskId>, now: real, t: TaskId)
    requires WellFormed(s) && Tracks(s, t) && Unblocked(Watch(secretLike, s, ids, now).log)
    requires forall u :: u in ids ==> u in s.tasks
    ensures Tracks(Watch(secretLike, s, ids, now), t)
    decreases ids
  {
    if ids != [] {
      var s1 := WatchOne(secretLike, s, ids[0], now);
      WatchGrowsLog(secretLike, s1, ids[1..], now);
      UnblockedPrefix(s1.log, Watch(secretLike, s, ids, now).log);
      WatchOneTask(secretLike, s, ids[0], now);
      WatchOneTracks(secretLike, s, ids[0], now, t);
      WatchTracks(secretLike, s1, ids[1..], now, t);
    }
  }

  /** The extra entries of a run are not task events; TaskRunner's three are of this kind. */
  predicate HonestNotes(run: seq<LocalOp>) {
    forall i :: 0 <= i < |run| && run[i].Note? ==> KindOf(run[i].entry.eventType) == Other
  }

  /** One turn of a TaskRunner as part of a run. */
  function Turn(secretLike: string -> bool, s: QueueState, w: WorkerId, now: real, outcome: KernelOutcome): seq<LocalOp> {
    var got := LocalStep(secretLike, s, Claim(w, now, {})).1;
    if !got.Returned? then [Call(Claim(w, now, {})), Note(IdleEntry(w))]
    else
      [Call(Claim(w, now, {})), Note(StartedEntry(got.task, w))]
      + (if outcome.RunEnded? then [Note(EndedEntry(got.task, w, outcome.goalStatus))] else [])
      + [Call(Settlement(got.task, w, now, outcome))]
  }

  lemma {:induction false} RunConcat(secretLike: string -> bool, db: Option<Mirror>, run: seq<LocalOp>, more: seq<LocalOp>, n: nat)
    requires n < |more|
    ensures LocalRun(secretLike, db, run + more[..n + 1])
         == LocalNext(secretLike, LocalRun(secretLike, db, run + more[..n]), more[n])
  {
    assert (run + more[..n + 1])[..|run| + n] == run + more[..n];
  }

  lemma TurnIsHonest(secretLike: string -> bool, s: QueueState, w: WorkerId, now: real, outcome: KernelOutcome)
    ensures HonestNotes(Turn(secretLike, s, w, now, outcome))
  {
  }

  lemma RunThen(secretLike: string -> bool, db: Option<Mirror>, run: seq<LocalOp>, more: seq<LocalOp>)
    requires 2 <= |more| <= 4
    ensures var start := LocalNext(secretLike, LocalNext(secretLike, LocalRun(secretLike, db, run), more[0]), more[1]);
      LocalRun(secretLike, db, run + more)
        == if |more| == 2 then start
           else if |more| == 3 then LocalNext(secretLike, start, more[2])
           else LocalNext(secretLike, LocalNext(secretLike, start, more[2]), more[3])
  {
    hide LocalNext;
    assert run + more[..0] == run && run + more[..|more|] == run + more;
    RunConcat(secretLike, db, run, more, 0);
    RunConcat(secretLike, db, run, more, 1);
    if |more| > 2 {
      RunConcat(secretLike, db, run, more, 2);
    }
    if |more| > 3 {
      RunConcat(secretLike, db, run, more, 3);
    }
    hide LocalRun;
  }

  /** A runner's turn is a run of calls and honest notes, so the theorem below covers it. */
  lemma TurnIsRun(secretLike: string -> bool, db: Option<Mirror>, run: seq<LocalOp>, w: WorkerId, now: real, outcome: KernelOutcome)
    ensures var s := LocalRun(secretLike, db, run); var turn := Turn(secretLike, s, w, now, outcome);
      HonestNotes(turn) && LocalRun(secretLike, db, run + turn) == RunNext(secretLike, s, w, now, outcome).0
  {
    hide LocalStep, Settlement, StartedEntry, EndedEntry, IdleEntry, LocalRun, Screened;
    TurnIsHonest(secretLike, LocalRun(secretLike, db, run), w, now, outcome);
    RunThen(secretLike, db, run, Turn(secretLike, LocalRun(secretLike, db, run), w, now, outcome));
    hide HonestNotes;
  }

  lemma NextGrowsLog(secretLike: string -> bool, s: QueueState, lop: LocalOp)
    requires WellFormed(s)
    ensures s.log <= LocalNext(secretLike, s, lop).log
  {
    match lop
    case Call(op) => CallAnnounces(secretLike, s, op);
    case Check(now) => WatchGrowsLog(secretLike, s, s.order, now);
    case Note(_) =>
  }

  lemma {:induction false} RunTracks(secretLike: string -> bool, persistent: bool, run: seq<LocalOp>, t: TaskId)
    requires HonestNotes(run)
    requires Unblocked(LocalRun(secretLike, if persistent then Some(Mirror(map[], map[])) else None, run).log)
    ensures Tracks(LocalRun(secretLike, if persistent then Some(Mirror(map[], map[])) else None, run), t)
  {
    if run != [] {
      var db := if persistent then Some(Mirror(map[], map[])) else None;
      var before, lop := run[..|run| - 1], run[|run| - 1];
      var s := LocalRun(secretLike, db, before);
      RunIsMirrored(secretLike, persistent, before);
      NextGrowsLog(secretLike, s, lop);
      UnblockedPrefix(s.log, LocalNext(secretLike, s, lop).log);
      RunTracks(secretLike, persistent, before, t);
      match lop
      case Call(op) => CallTracks(secretLike, s, op, t);
      case Check(now) => WatchTracks(secretLike, s, s.order, now, t);
      case Note(entry) =>
        UnblockedTail(s.log, secretLike, entry);
        BareEntryTracks(s, LocalNext(secretLike, s, lop), entry, t);
    }
  }

  /** Replaying the log of any run of TaskQueue, Watchdog and TaskRunner whose entries all passed
      the secret screen: it knows exactly the live tasks, and gives a task its real status exactly
      when the task's latest status change was not a pause or a resumption. */
  lemma ReplayAgreesIff(secretLike: string -> bool, persistent: bool, run: seq<LocalOp>, t: TaskId)
    requires HonestNotes(run)
    requires Unblocked(LocalRun(secretLike, if persistent then Some(Mirror(map[], map[])) else None, run).log)
    ensures var s := LocalRun(secretLike, if persistent then Some(Mirror(map[], map[])) else None, run);
      && (t in s.tasks <==> Text(t) in Replayed(s.log))
      && (t in s.tasks ==> (StandsFor(Replayed(s.log)[Text(t)], s.tasks[t].status) <==> !Blind(s.log, t)))
  {
    RunTracks(secretLike, persistent, run, t);
  }
}
