/** The replayer over a log in which the secret screen has replaced entries by notices: what it
    shows of a task is then what the entries that passed tell, and the live queue is ahead of it. */
module ScreenedReplay {
  import opened Tasks
  import opened AuditChain
  import opened LocalQueue
  import opened SqliteMirror
  import opened AuditReplay

  /** The screen that lets everything pass: the log that would have been written without it. */
  const NOTHING: string -> bool := (_: string) => false

  /** The status that an event announces, pauses and resumptions included. */
  function LedTo(eventType: string): Option<TaskStatus> {
    match KindOf(eventType)
    case Fresh => Some(Queued)
    case Sets(text) =>
      if text == "running" then Some(Running)
      else if text == "succeeded" then Some(Succeeded)
      else if text == "failed" then Some(Failed)
      else if text == "timed_out" then Some(TimedOut)
      else if text == "cancelled" then Some(Cancelled)
      else Some(Queued)
    case Hidden => if eventType == "task.paused" then Some(Paused) else Some(Queued)
    case Other => None
  }

  predicate About(e: Entry, t: TaskId) {
    e.payload.Some? && TaskIdOf(e.payload.value) == Text(t) && LedTo(e.eventType).Some?
  }

  /** The status that the latest event of a task announced. */
  function LastStatus(log: seq<Entry>, t: TaskId): Option<TaskStatus> {
    if log == [] then None
    else if About(log[|log| - 1], t) then LedTo(log[|log| - 1].eventType)
    else LastStatus(log[..|log| - 1], t)
  }

  /** The status that the replayer shows: of the latest event it knows, from an insertion on. */
  function Shown(log: seq<Entry>, t: TaskId): Option<TaskStatus> {
    if log == [] then None
    else
      var e, before := log[|log| - 1], Shown(log[..|log| - 1], t);
      if About(e, t) && (KindOf(e.eventType) == Fresh || (KindOf(e.eventType).Sets? && before.Some?)) then LedTo(e.eventType)
      else before
  }

  function ScreenAll(secretLike: string -> bool, log: seq<Entry>): seq<Entry> {
    if log == [] then [] else ScreenAll(secretLike, log[..|log| - 1]) + [Screened(secretLike, log[|log| - 1])]
  }

  // ---------- what the replayer shows ----------

  /** Insertions carry no status of their own. */
  ghost predicate NoStatusInside(log: seq<Entry>) {
    forall e :: e in log && e.payload.Some? && KindOf(e.eventType) == Fresh ==> "status" !in e.payload.value
  }

  ghost predicate Shows(log: seq<Entry>, t: TaskId) {
    && (Text(t) in Replayed(log) <==> Shown(log, t).Some?)
    && (Text(t) in Replayed(log) ==>
          forall status :: StandsFor(Replayed(log)[Text(t)], status) <==> Shown(log, t) == Some(status))
  }

  lemma {:induction false} ReplayShows(log: seq<Entry>, t: TaskId)
    requires NoStatusInside(log)
    ensures Shows(log, t)
  {
    if log != [] {
      var e, before := log[|log| - 1], log[..|log| - 1];
      assert e in log && forall x :: x in before ==> x in log;
      ReplayShows(before, t);
      hide Replayed, Shown;
      EntryShows(log, t);
    }
  }

  lemma SetsLeadsTo(eventType: string)
    requires KindOf(eventType).Sets?
    ensures var text := KindOf(eventType).status;
      forall status :: (text == StatusText(status) || (status == Queued && text == "retrying")) <==> LedTo(eventType) == Some(status)
  {
  }

  /** What the replayer holds of the task, after an entry of each kind. */
  lemma InfoAfter(tasks: map<Value, Info>, e: Entry, t: TaskId)
    ensures var after := ApplyEntry(tasks, e);
      if !About(e, t) || KindOf(e.eventType) == Hidden then (Text(t) in after <==> Text(t) in tasks) && (Text(t) in tasks ==> after[Text(t)] == tasks[Text(t)])
      else if KindOf(e.eventType) == Fresh then Text(t) in after && after[Text(t)] == map["status" := Text("queued")] + e.payload.value
      else (Text(t) in after <==> Text(t) in tasks)
           && (Text(t) in tasks ==> after[Text(t)] == tasks[Text(t)]["status" := Text(KindOf(e.eventType).status)])
  {
    hide KindOf;
  }

  lemma FreshStandsForQueued(payload: Info, status: TaskStatus)
    requires "status" !in payload
    ensures StandsFor(map["status" := Text("queued")] + payload, status) <==> status == Queued
  {
  }

  lemma EntryShows(log: seq<Entry>, t: TaskId)
    requires log != [] && NoStatusInside(log) && Shows(log[..|log| - 1], t)
    ensures Shows(log, t)
  {
    var e, before := log[|log| - 1], log[..|log| - 1];
    assert e in log;
    InfoAfter(Replayed(before), e, t);
    assert Replayed(log) == ApplyEntry(Replayed(before), e);
    if KindOf(e.eventType).Sets? {
      SetsLeadsTo(e.eventType);
      hide Replayed, ApplyEntry, LedTo, KindOf, StatusText;
    } else if KindOf(e.eventType) == Fresh && About(e, t) {
      assert LedTo(e.eventType) == Some(Queued);
      forall status
        ensures StandsFor(Replayed(log)[Text(t)], status) <==> status == Queued
      {
        FreshStandsForQueued(e.payload.value, status);
      }
      hide Replayed, ApplyEntry, LedTo, KindOf, StandsFor;
    } else {
      hide Replayed, ApplyEntry, LedTo, KindOf, StandsFor;
    }
  }

  // ---------- what the whole log tells ----------

  lemma NothingLeaks(e: Entry)
    ensures Screened(NOTHING, e) == e
  {
  }

  /** The latest event of a task tells its status, and tells of no other tasks. */
  ghost predicate Tells(s: QueueState, t: TaskId) {
    LastStatus(s.log, t) == if t in s.tasks then Some(s.tasks[t].status) else None
  }

  lemma UpdateTells(s: QueueState, s': QueueState, task: Task, e: Entry, t: TaskId)
    requires Tells(s, t) && s'.tasks == s.tasks[task.spec.id := task] && s'.log == s.log + [e]
    requires e.payload.Some? && TaskIdOf(e.payload.value) == Text(task.spec.id)
    requires if LedTo(e.eventType).Some? then LedTo(e.eventType).value == task.status
             else task.spec.id in s.tasks && s.tasks[task.spec.id].status == task.status
    ensures Tells(s', t)
  {
    assert s'.log[..|s'.log| - 1] == s.log;
    hide LedTo;
  }

  lemma BareEntryTells(s: QueueState, s': QueueState, e: Entry, t: TaskId)
    requires Tells(s, t) && s'.tasks == s.tasks && s'.log == s.log + [e] && KindOf(e.eventType) == Other
    ensures Tells(s', t)
  {
    assert s'.log[..|s'.log| - 1] == s.log;
    hide KindOf;
  }

  /** The status that a call gives its task; a heartbeat gives none. */
  function StatusOfOp(op: Op): Option<TaskStatus> {
    match op
    case Enqueue(_) => Some(Queued)
    case Claim(_, _, _) => Some(Running)
    case Complete(_, _, _) => Some(Succeeded)
    case Fail(_, _, _, _) => Some(Failed)
    case Retry(_, _, _) => Some(Queued)
    case Cancel(_, _, _) => Some(Cancelled)
    case Pause(_, _) => Some(Paused)
    case Resume(_) => Some(Queued)
    case _ => None
  }

  lemma EntryLeadsTo(op: Op, task: Task)
    ensures LedTo(EntryOfOp(op, task).eventType) == StatusOfOp(op)
  {
  }

  lemma OpLeadsTo(s: QueueState, op: Op)
    requires WellFormed(s)
    ensures var outcome := LocalStep(NOTHING, s, op).1;
      outcome.Returned? && !(op.Enqueue? && !IsNew(s, op.spec)) ==>
        if StatusOfOp(op).Some? then StatusOfOp(op).value == outcome.task.status
        else outcome.task.spec.id in s.tasks && s.tasks[outcome.task.spec.id].status == outcome.task.status
  {
    hide FirstQueued, Screened, PersistUpdate, PersistEnqueue, TaskEntry, WorkerEntry, RetriedEntry, LocalQueue.ClaimedEntry;
    hide EnqueuedEntry, DeduplicatedEntry;
  }

  lemma CallTells(s: QueueState, op: Op, t: TaskId)
    requires WellFormed(s) && Tells(s, t)
    ensures Tells(LocalStep(NOTHING, s, op).0, t)
  {
    var (s', outcome) := LocalStep(NOTHING, s, op);
    CallAnnounces(NOTHING, s, op);
    OpLeadsTo(s, op);
    hide LocalStep, LedTo, StatusOfOp;
    if outcome.Returned? {
      if op.Enqueue? && !IsNew(s, op.spec) {
        var e := DeduplicatedEntry(outcome.task, op.spec.key);
        NothingLeaks(e);
        BareEntryTells(s, s', e, t);
      } else {
        var e := EntryOfOp(op, outcome.task);
        NothingLeaks(e);
        EntryDescribesOp(op, outcome.task);
        EntryLeadsTo(op, outcome.task);
        UpdateTells(s, s', outcome.task, e, t);
      }
    }
  }

  lemma WatchOneTells(s: QueueState, u: TaskId, now: real, t: TaskId)
    requires WellFormed(s) && Tells(s, t)
    ensures Tells(WatchOne(NOTHING, s, u, now), t)
  {
    if u in s.tasks && TimesOut(s.tasks[u], now) {
      var reason := TimeoutReason(s.tasks[u], now);
      var task := FinishedTask(s.tasks[u], TimedOut, now).(failureReason := reason);
      var e := TimedOutEntry(task, reason.value);
      NothingLeaks(e);
      assert Describes(e, u, Sets("timed_out"));
      assert LedTo(e.eventType) == Some(TimedOut);
      UpdateTells(s, WatchOne(NOTHING, s, u, now), task, e, t);
    }
  }

  lemma {:induction false} WatchTells(s: QueueState, ids: seq<TaskId>, now: real, t: TaskId)
    requires WellFormed(s) && Tells(s, t) && forall u :: u in ids ==> u in s.tasks
    ensures Tells(Watch(NOTHING, s, ids, now), t)
    decreases ids
  {
    if ids != [] {
      WatchOneTask(NOTHING, s, ids[0], now);
      WatchOneTells(s, ids[0], now, t);
      WatchTells(WatchOne(NOTHING, s, ids[0], now), ids[1..], now, t);
    }
  }

  function Start(persistent: bool): Option<Mirror> { if persistent then Some(Mirror(map[], map[])) else None }

  lemma {:induction false} RunTells(persistent: bool, run: seq<LocalOp>, t: TaskId)
    requires HonestNotes(run)
    ensures Tells(LocalRun(NOTHING, Start(persistent), run), t)
  {
    if run != [] {
      var before, lop := run[..|run| - 1], run[|run| - 1];
      var s := LocalRun(NOTHING, Start(persistent), before);
      RunIsMirrored(NOTHING, persistent, before);
      RunTells(persistent, before, t);
      match lop
      case Call(op) => CallTells(s, op, t);
      case Check(now) => WatchTells(s, s.order, now, t);
      case Note(entry) =>
        NothingLeaks(entry);
        BareEntryTells(s, LocalNext(NOTHING, s, lop), entry, t);
    }
  }

  // ---------- the log with and without the screen ----------

  /** The same queue; the log of `s` is that of `u` seen through the screen. */
  ghost predicate Screens(secretLike: string -> bool, s: QueueState, u: QueueState) {
    s == u.(log := s.log) && s.log == ScreenAll(secretLike, u.log)
  }

  lemma ScreenAppends(secretLike: string -> bool, log: seq<Entry>, e: Entry)
    ensures ScreenAll(secretLike, log + [Screened(NOTHING, e)]) == ScreenAll(secretLike, log) + [Screened(secretLike, e)]
  {
    NothingLeaks(e);
    assert (log + [e])[..|log|] == log;
  }

  lemma PutScreens(secretLike: string -> bool, s: QueueState, u: QueueState, task: Task, e: Entry)
    requires Screens(secretLike, s, u)
    ensures Screens(secretLike, LocalQueue.Put(secretLike, s, task, e), LocalQueue.Put(NOTHING, u, task, e))
  {
    ScreenAppends(secretLike, u.log, e);
    hide ScreenAll, Screened, PersistUpdate;
  }

  lemma EnqueueScreens(secretLike: string -> bool, s: QueueState, u: QueueState, spec: TaskSpec)
    requires Screens(secretLike, s, u)
    ensures Screens(secretLike, LocalStep(secretLike, s, Enqueue(spec)).0, LocalStep(NOTHING, u, Enqueue(spec)).0)
  {
    ScreenAppends(secretLike, u.log, EnqueuedEntry(spec));
    if !IsNew(s, spec) {
      ScreenAppends(secretLike, u.log, DeduplicatedEntry(s.tasks[s.index[spec.key.value]], spec.key));
    }
    hide ScreenAll, Screened, PersistEnqueue, EnqueuedEntry, DeduplicatedEntry, Indexed;
  }

  lemma LockedCallScreens(secretLike: string -> bool, s: QueueState, u: QueueState, op: Op)
    requires Screens(secretLike, s, u) && (op.Heartbeat? || op.Complete? || op.Fail? || op.Retry? || op.Pause?)
    ensures Screens(secretLike, LocalStep(secretLike, s, op).0, LocalStep(NOTHING, u, op).0)
  {
    hide LocalStep, LocalQueue.Put, WorkerEntry, RetriedEntry, FinishedTask, RetriedTask, ScreenAll;
    match op
    case Heartbeat(t, w, now) =>
      HeartbeatUnfolds(secretLike, s, t, w, now);
      HeartbeatUnfolds(NOTHING, u, t, w, now);
      if Locked(s, t, w) {
        var task := s.tasks[t].(lastHeartbeatAt := Some(now));
        PutScreens(secretLike, s, u, task, WorkerEntry("task.heartbeat", "Task heartbeat recorded", task.spec.id, w));
      }
    case Complete(t, w, now) =>
      CompleteUnfolds(secretLike, s, t, w, now);
      CompleteUnfolds(NOTHING, u, t, w, now);
      if Locked(s, t, w) {
        var task := FinishedTask(s.tasks[t], Succeeded, now);
        PutScreens(secretLike, s, u, task, WorkerEntry("task.completed", "Task completed", task.spec.id, w));
      }
    case Fail(t, w, reason, now) =>
      FailUnfolds(secretLike, s, t, w, reason, now);
      FailUnfolds(NOTHING, u, t, w, reason, now);
      if Locked(s, t, w) {
        var task := FinishedTask(s.tasks[t], Failed, now).(failureReason := Some(reason));
        PutScreens(secretLike, s, u, task, WorkerEntry("task.failed", reason, task.spec.id, w));
      }
    case Retry(t, w, reason) =>
      RetryUnfolds(secretLike, s, t, w, reason);
      RetryUnfolds(NOTHING, u, t, w, reason);
      if Locked(s, t, w) {
        var task := RetriedTask(s.tasks[t], reason);
        PutScreens(secretLike, s, u, task, RetriedEntry(task, w, reason));
      }
    case Pause(t, w) =>
      PauseUnfolds(secretLike, s, t, w);
      PauseUnfolds(NOTHING, u, t, w);
      if Locked(s, t, w) {
        var task := s.tasks[t].(status := Paused, lockedBy := None);
        PutScreens(secretLike, s, u, task, WorkerEntry("task.paused", "Task paused", task.spec.id, w));
      }
  }

  lemma CallScreens(secretLike: string -> bool, s: QueueState, u: QueueState, op: Op)
    requires Screens(secretLike, s, u)
    ensures Screens(secretLike, LocalStep(secretLike, s, op).0, LocalStep(NOTHING, u, op).0)
  {
    if op.Heartbeat? || op.Complete? || op.Fail? || op.Retry? || op.Pause? {
      LockedCallScreens(secretLike, s, u, op);
    } else if op.Enqueue? {
      EnqueueScreens(secretLike, s, u, op.spec);
    } else if op.Claim? || op.Cancel? || op.Resume? {
      FreeCallScreens(secretLike, s, u, op);
    }
    hide Screens, LocalQueue.Put, FirstQueued;
  }

  lemma FreeCallScreens(secretLike: string -> bool, s: QueueState, u: QueueState, op: Op)
    requires Screens(secretLike, s, u) && (op.Claim? || op.Cancel? || op.Resume?)
    ensures Screens(secretLike, LocalStep(secretLike, s, op).0, LocalStep(NOTHING, u, op).0)
  {
    match op
    case Claim(w, now, skipped) =>
      var first := FirstQueued(s.tasks, s.order);
      if first.Some? && first.value in s.tasks {
        var task := ClaimedTask(s.tasks[first.value], w, now);
        PutScreens(secretLike, s, u, task, LocalQueue.ClaimedEntry(task, w));
      }
      hide LocalQueue.Put, FirstQueued, ClaimedTask, LocalQueue.ClaimedEntry, ScreenAll;
    case Cancel(t, reason, now) =>
      CancelUnfolds(secretLike, s, t, reason, now);
      CancelUnfolds(NOTHING, u, t, reason, now);
      hide LocalStep, LocalQueue.Put, TaskEntry, FinishedTask, ScreenAll;
      if t in s.tasks {
        var task := FinishedTask(s.tasks[t], Cancelled, now).(failureReason := Some(reason));
        PutScreens(secretLike, s, u, task, TaskEntry("task.cancelled", reason, task.spec.id));
      }
    case Resume(t) =>
      ResumeUnfolds(secretLike, s, t);
      ResumeUnfolds(NOTHING, u, t);
      hide LocalStep, LocalQueue.Put, TaskEntry, ScreenAll;
      if t in s.tasks && s.tasks[t].status == Paused {
        var task := s.tasks[t].(status := Queued);
        PutScreens(secretLike, s, u, task, TaskEntry("task.resumed", "Task resumed", task.spec.id));
      }
    case _ =>
  }

  lemma {:induction false} WatchScreens(secretLike: string -> bool, s: QueueState, u: QueueState, ids: seq<TaskId>, now: real)
    requires Screens(secretLike, s, u)
    ensures Screens(secretLike, Watch(secretLike, s, ids, now), Watch(NOTHING, u, ids, now))
    decreases ids
  {
    if ids != [] {
      var t := ids[0];
      if t in s.tasks && TimesOut(s.tasks[t], now) {
        var reason := TimeoutReason(s.tasks[t], now);
        var task := FinishedTask(s.tasks[t], TimedOut, now).(failureReason := reason);
        PutScreens(secretLike, s, u, task, TimedOutEntry(task, reason.value));
      }
      hide LocalQueue.Put, TimedOutEntry, ScreenAll;
      WatchScreens(secretLike, WatchOne(secretLike, s, t, now), WatchOne(NOTHING, u, t, now), ids[1..], now);
    }
  }

  /** The screen changes nothing but the log. */
  lemma {:induction false} RunScreens(secretLike: string -> bool, db: Option<Mirror>, run: seq<LocalOp>)
    ensures Screens(secretLike, LocalRun(secretLike, db, run), LocalRun(NOTHING, db, run))
  {
    if run != [] {
      var before, lop := run[..|run| - 1], run[|run| - 1];
      var s, u := LocalRun(secretLike, db, before), LocalRun(NOTHING, db, before);
      RunScreens(secretLike, db, before);
      match lop
      case Call(op) => CallScreens(secretLike, s, u, op);
      case Check(now) => WatchScreens(secretLike, s, u, s.order, now);
      case Note(entry) =>
        ScreenAppends(secretLike, u.log, entry);
        hide ScreenAll, Screened;
    }
  }

  // ---------- agreement ----------

  lemma CallsAddNoStatus(secretLike: string -> bool, s: QueueState, op: Op)
    requires WellFormed(s) && NoStatusInside(s.log)
    ensures NoStatusInside(LocalStep(secretLike, s, op).0.log)
  {
    var (s', outcome) := LocalStep(secretLike, s, op);
    CallAnnounces(secretLike, s, op);
    hide LocalStep;
    if outcome.Returned? {
      if op.Enqueue? && !IsNew(s, op.spec) {
        EntryAddsNoStatus(secretLike, s.log, DeduplicatedEntry(outcome.task, op.spec.key));
      } else {
        EntryDescribesOp(op, outcome.task);
        EntryAddsNoStatus(secretLike, s.log, EntryOfOp(op, outcome.task));
      }
    }
  }

  lemma EntryAddsNoStatus(secretLike: string -> bool, log: seq<Entry>, e: Entry)
    requires NoStatusInside(log) && (e.payload.Some? && KindOf(e.eventType) == Fresh ==> "status" !in e.payload.value)
    ensures NoStatusInside(log + [Screened(secretLike, e)])
  {
    var all := log + [Screened(secretLike, e)];
    assert KindOf(BLOCKED) == Other;
    forall x | x in all
      ensures x in log || x == e || x.eventType == BLOCKED
    {
    }
    hide KindOf;
  }

  lemma {:induction false} WatchAddsNoStatus(secretLike: string -> bool, s: QueueState, ids: seq<TaskId>, now: real)
    requires NoStatusInside(s.log)
    ensures NoStatusInside(Watch(secretLike, s, ids, now).log)
    decreases ids
  {
    if ids != [] {
      var t := ids[0];
      if t in s.tasks && TimesOut(s.tasks[t], now) {
        var reason := TimeoutReason(s.tasks[t], now);
        var task := FinishedTask(s.tasks[t], TimedOut, now).(failureReason := reason);
        assert KindOf(TimedOutEntry(task, reason.value).eventType) == Sets("timed_out");
        EntryAddsNoStatus(secretLike, s.log, TimedOutEntry(task, reason.value));
      }
      hide TimedOutEntry, Screened, NoStatusInside;
      WatchAddsNoStatus(secretLike, WatchOne(secretLike, s, t, now), ids[1..], now);
    }
  }

  lemma {:induction false} RunAddsNoStatus(secretLike: string -> bool, persistent: bool, run: seq<LocalOp>)
    requires HonestNotes(run)
    ensures NoStatusInside(LocalRun(secretLike, Start(persistent), run).log)
  {
    if run != [] {
      var before, lop := run[..|run| - 1], run[|run| - 1];
      var s := LocalRun(secretLike, Start(persistent), before);
      RunIsMirrored(secretLike, persistent, before);
      RunAddsNoStatus(secretLike, persistent, before);
      match lop
      case Call(op) => CallsAddNoStatus(secretLike, s, op);
      case Check(now) => WatchAddsNoStatus(secretLike, s, s.order, now);
      case Note(entry) => EntryAddsNoStatus(secretLike, s.log, entry);
    }
  }

  lemma NoticesAreAboutNothing(secretLike: string -> bool, e: Entry, t: TaskId)
    ensures About(Screened(secretLike, e), t) ==> About(e, t)
  {
    assert LedTo(BLOCKED) == None;
  }

  /** What is shown through the screen has happened. */
  lemma {:induction false} ShownHappened(secretLike: string -> bool, log: seq<Entry>, t: TaskId)
    requires Shown(ScreenAll(secretLike, log), t).Some?
    ensures LastStatus(log, t).Some?
  {
    hide LedTo, KindOf, Screened;
    if log != [] {
      var n := |log| - 1;
      var seen := ScreenAll(secretLike, log);
      assert seen[..|seen| - 1] == ScreenAll(secretLike, log[..n]) && seen[|seen| - 1] == Screened(secretLike, log[n]);
      NoticesAreAboutNothing(secretLike, log[n], t);
      if !About(log[n], t) {
        assert Shown(seen, t) == Shown(ScreenAll(secretLike, log[..n]), t);
        ShownHappened(secretLike, log[..n], t);
      }
    }
  }

  /** Replaying the log of any run, whatever the screen replaced in it. The replayer knows only tasks
      that there are; it knows a task iff an insertion of it passed the screen; and the status it
      gives is the real one iff the latest event it shows led to the same status as the latest event
      that there was. */
  lemma ReplayAgreesThroughScreenIff(secretLike: string -> bool, persistent: bool, run: seq<LocalOp>, t: TaskId)
    requires HonestNotes(run)
    ensures var s, whole := LocalRun(secretLike, Start(persistent), run), LocalRun(NOTHING, Start(persistent), run).log;
      && s.log == ScreenAll(secretLike, whole)
      && LastStatus(whole, t) == (if t in s.tasks then Some(s.tasks[t].status) else None)
      && (Text(t) in Replayed(s.log) <==> Shown(s.log, t).Some?)
      && (Text(t) in Replayed(s.log) ==>
            t in s.tasks && (StandsFor(Replayed(s.log)[Text(t)], s.tasks[t].status) <==> Shown(s.log, t) == LastStatus(whole, t)))
  {
    var s, whole := LocalRun(secretLike, Start(persistent), run), LocalRun(NOTHING, Start(persistent), run).log;
    RunScreens(secretLike, Start(persistent), run);
    RunTells(persistent, run, t);
    RunAddsNoStatus(secretLike, persistent, run);
    ReplayShows(s.log, t);
    if Shown(s.log, t).Some? {
      ShownHappened(secretLike, whole, t);
    }
    hide LocalRun, Replayed, Shown, LastStatus, ScreenAll, StandsFor;
  }
}
