/** The values both task queues work on: a task, the requests a caller can make and
    what a request returns. */
module Tasks {

  type TaskId = string
  type WorkerId = string

  datatype Option<+T> = None | Some(value: T)

  /** What has been found, followed by what the rest gives, if it gives anything. */
  function Prefixed<T>(found: seq<T>, rest: Option<seq<T>>): (r: Option<seq<T>>)
    ensures found == [] ==> r == rest
  {
    match rest
    case None => None
    case Some(s) =>
      assert [] + s == s;
      Some(found + s)
  }

  datatype TaskStatus = Queued | Running | Paused | Cancelled | Succeeded | Failed | TimedOut

  /** The columns of a task that no statement ever updates. */
  datatype TaskSpec = TaskSpec(
    id: TaskId,
    planId: string,
    planJson: string,
    key: Option<string>,
    maxAttempts: int,
    heartbeatTimeout: Option<real>,
    runtimeTimeout: Option<real>,
    enqueuedAt: real)

  datatype Task = Task(
    spec: TaskSpec,
    status: TaskStatus,
    attempts: int,
    lockedBy: Option<WorkerId>,
    startedAt: Option<real>,
    lastHeartbeatAt: Option<real>,
    finishedAt: Option<real>,
    failureReason: Option<string>)

  /** A task as `enqueue` creates it. */
  function NewTask(spec: TaskSpec): Task {
    Task(spec, Queued, 0, None, None, None, None, None)
  }

  /** The calls of the queue interface, with the clock reading each one takes. `skipped`
      holds the rows that other transactions have locked when the claim runs. */
  datatype Op =
    | Enqueue(spec: TaskSpec)
    | Claim(worker: WorkerId, now: real, skipped: set<TaskId>)
    | Heartbeat(id: TaskId, worker: WorkerId, now: real)
    | Complete(id: TaskId, worker: WorkerId, now: real)
    | Fail(id: TaskId, worker: WorkerId, reason: string, now: real)
    | Retry(id: TaskId, worker: WorkerId, reason: string)
    | Cancel(id: TaskId, reason: string, now: real)
    | Pause(id: TaskId, worker: WorkerId)
    | Resume(id: TaskId)
    | ReapRequeue(now: real)
    | ReapTimeOut(now: real)

  datatype QueueError = UnknownTask | NotLocked | NotPaused | StoreFailure

  datatype Outcome =
    | Returned(task: Task)
    | Idle
    | Reaped(ids: set<TaskId>)
    | Raised(error: QueueError)

  // ---------- ORDER BY enqueued_at, task_id ----------

  predicate TextLess(a: string, b: string) {
    if b == "" then false
    else if a == "" then true
    else a[0] < b[0] || (a[0] == b[0] && TextLess(a[1..], b[1..]))
  }

  predicate Before(a: TaskSpec, b: TaskSpec) {
    a.enqueuedAt < b.enqueuedAt || (a.enqueuedAt == b.enqueuedAt && TextLess(a.id, b.id))
  }

  lemma {:induction false} TextLessTotal(a: string, b: string)
    ensures a == b || TextLess(a, b) || TextLess(b, a)
    ensures !(TextLess(a, b) && TextLess(b, a))
  {
    if a != "" && b != "" {
      TextLessTotal(a[1..], b[1..]);
      assert a == [a[0]] + a[1..] && b == [b[0]] + b[1..];
    }
  }

  lemma {:induction false} TextLessTransitive(a: string, b: string, c: string)
    requires TextLess(a, b) && TextLess(b, c)
    ensures TextLess(a, c)
  {
    if a != "" && a[0] == b[0] && b[0] == c[0] {
      TextLessTransitive(a[1..], b[1..], c[1..]);
    }
  }

  /** The order of text columns: a text comes first when it is a proper beginning of the other, or
      has the smaller code point where they first differ. */
  lemma {:induction false} TextLessIff(a: string, b: string)
    ensures TextLess(a, b)
      <==> (|a| < |b| && b[..|a|] == a)
           || exists k :: 0 <= k < |a| && k < |b| && a[..k] == b[..k] && a[k] < b[k]
  {
    if a != "" && b != "" {
      if a[0] == b[0] {
        TextLessIff(a[1..], b[1..]);
        SameStart(a, b);
      } else {
        assert a[..0] == b[..0];
        assert forall k :: 0 < k < |a| && k < |b| ==> a[..k][0] == a[0] && b[..k][0] == b[0];
        assert |a| < |b| ==> b[..|a|][0] == b[0];
      }
    }
  }

  lemma SameStart(a: string, b: string)
    requires a != "" && b != "" && a[0] == b[0]
    ensures |a| < |b| ==> (b[..|a|] == a <==> b[1..][..|a[1..]|] == a[1..])
    ensures (exists k :: 0 <= k < |a| && k < |b| && a[..k] == b[..k] && a[k] < b[k])
       <==> exists k :: 0 <= k < |a[1..]| && k < |b[1..]| && a[1..][..k] == b[1..][..k] && a[1..][k] < b[1..][k]
  {
    forall k | 0 <= k < |a[1..]| && k < |b[1..]|
      ensures a[..k + 1] == b[..k + 1] <==> a[1..][..k] == b[1..][..k]
    {
      assert a[..k + 1] == [a[0]] + a[1..][..k] && b[..k + 1] == [b[0]] + b[1..][..k];
      assert a[..k + 1][1..] == a[1..][..k] && b[..k + 1][1..] == b[1..][..k];
    }
    if k :| 0 <= k < |a| && k < |b| && a[..k] == b[..k] && a[k] < b[k] {
      var i := k - 1;
      assert a[1..][i] == a[k] && b[1..][i] == b[k] && a[..i + 1] == b[..i + 1];
    }
    if k :| 0 <= k < |a[1..]| && k < |b[1..]| && a[1..][..k] == b[1..][..k] && a[1..][k] < b[1..][k] {
      var n := k + 1;
      assert a[n] == a[1..][k] && b[n] == b[1..][k] && a[..n] == b[..n];
    }
    if |a| < |b| {
      assert b[..|a|] == [b[0]] + b[1..][..|a[1..]|] && a == [a[0]] + a[1..];
      assert b[..|a|][1..] == b[1..][..|a[1..]|];
    }
  }

  lemma BeforeTransitive(a: TaskSpec, b: TaskSpec, c: TaskSpec)
    requires Before(a, b) && Before(b, c)
    ensures Before(a, c)
  {
    if a.enqueuedAt == c.enqueuedAt {
      TextLessTransitive(a.id, b.id, c.id);
    }
  }

  lemma BeforeTotal(a: TaskSpec, b: TaskSpec)
    ensures a.id != b.id ==> Before(a, b) || Before(b, a)
    ensures !(Before(a, b) && Before(b, a))
  {
    TextLessTotal(a.id, b.id);
  }
}
