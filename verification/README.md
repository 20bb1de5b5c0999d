# Leos runtime: a verified model

This project models the parts of the Leos agent runtime that decide, queue, execute, undo and
record, and proves what they promise over whole runs. Functions describe one step of each part;
classes with the source's fields and loops are proved to take exactly those steps; lemmas say
what any number of steps can and cannot do.

| module | what it models |
|---|---|
| `Tasks`, `LeaseTable`, `LeaseHistory`, `PostgresQueue` | the shared task table, its conditional statements and any interleaving of them |
| `RunnerSystem` | runner processes that work on copies of claimed tasks, and reapers |
| `LocalQueue`, `TaskQueues`, `SqliteMirror` | the single-process queue, its watchdog and runner, and its database mirror |
| `LockStep` | the two queues side by side |
| `AuditChain`, `AuditReplay`, `ScreenedReplay`, `BurstDetector` | the hash-chained log, its verifier, its replayer, the burst rule |
| `TokenBuckets` | the write limiter of the server |
| `GitHubRepository`, `GitHubTools` | the in-memory repository, the writing tools and their rollbacks |
| `Transactions`, `PlanOutcomes`, `TransactionManagers` | the executor of plans with its rollback stack |
| `RunnerExecutions`, `LaterAttempts`, `RepeatedWork` | a task runner on top of the executor: all attempts of one task, and what later ones make of a completed one |
| `PolicyDecisions`, `DecisionsInFull`, `PolicyEngines` | rules, grants, decisions and generated profiles |
| `MemoryStores`, `Sanitizer` | the memory store; the secret boundary |
| `Plans`, `PlanJson`, `PlanDefaults`, `JsonLines`, `JsonTexts`, `RuntimeStores`, `RuntimeStoreFiles` | plans as JSON; records as lines of text; writing and reading JSON text; the two runtime stores |

Where a promise does not hold for all inputs, the project proves exactly when it does:

- among runners and reapers, the retry bound holds iff worker ids are distinct, and the default id is
  a constant (`RetryBound`); callers break it iff they retry or resume a task without attempts left,
  or insert one (`BoundUnderAnyCalls`);
- an empty idempotency key is a key to the Postgres queue and none to the local one (`EnqueueAgreesIff`);
- a worker called "None" and an enqueue time of zero do not survive a reload (`ReloadRestoresIff`), and
  the order of the list survives iff enqueue times strictly increase along it (`OrderSurvivesIff`);
- the replayer does not see pauses and resumptions (`ReplayAgreesIff`), nor events that the secret
  screen replaced (`ReplayAgreesThroughScreenIff`);
- rolling back an update restores neither a file that was new, nor a branch entry that was not the
  hash of the file (`UpdateUndoIff`, for whole runs `UpdatesUndoneIff`), nor the credential kept for a new file (`CredentialsAreDropped`);
- a stopped plan can be carried out by running it again iff no keyed step had been verified before
  the stop (`RerunCompletesIff`), and its plan object iff, moreover, the goal did not end failed
  (`RerunObjectCompletesIff`);
- a plan on branches of its own is done or undone as a whole unless an exception leaves the executor
  (`AllOrNothing`), which it does iff something raises at a step and moment that the run gets to
  (`EscapesIff`);
- a step that is harder to undo is approved where an easy one is not iff a rule asks for reversibility
  and the step is cleared (`EscapesRuleIff`); dropping grants turns a denial into an approval iff the
  grant in force withholds what the profile clears (`GrantRestrictsIff`);
- the two runtime stores agree after refused saves iff each refusal was harmless (`AlwaysRefinesIff`);
- one saved record with U+0085, U+2028 or U+2029 in its text makes its JSONL file unreadable (`ReadBackIff`,
  `PlainFileReadsBackIff`);
- a secret inside an enum member needs three redactions (`TwoPassesSettleIff`);
- what a completed attempt left survives the later attempts of a task runner iff the plan creates no
  branch before its first keyed step (`SurvivesIff`); with every gate agreeing, a plan without keys on
  a branch of its own is carried out again iff every file it adds ends empty, and otherwise its second
  attempt deletes the branch (`SecondAttemptCompletesIff`, `AllAttemptsCompleteIff`).

Later attempts are what a runner makes: the executor never reports a goal as succeeded, so a task is
tried until its attempts are used up and has then failed (`ExecutorNeverCompletesTask`,
`TaskIsTriedToTheEnd`). A plan without keys that only reads, creates branches and opens pull requests has
these effects again each time (`EffectsAreRepeated`, `PullRequestsPileUp`); once the key of a first step
is used up, later attempts change nothing (`FirstKeyProtects`).

`docs/TASK_QUEUE.md` (lines 56-58) says that step-level idempotency persists across reloads; the code
keeps those keys in the agent's world state only, and the model follows the code.

Clocks, random identifiers, hashes and the choice of strings that look like secrets are parameters
of the functions and methods. `dafny verify dfyconfig.toml` checks the project.

## Model

| member | source | states |
|---|---|---|
| LeaseHistory.Ownership | src/leos_agent/task_queue_backends.py:179-367 | in every run of any workers, callers and reapers, a row is running iff locked iff leased, and it is locked by `w` iff the task's latest claim was by `w` and nothing but heartbeats came after it |
| LeaseHistory.OnlyTheHolderActs | src/leos_agent/task_queue_backends.py:217-293 | after any run, heartbeat, complete, fail, retry and pause by `w` succeed iff `w` holds the task; otherwise the table is untouched and the error tells an unknown task from a foreign lock |
| LeaseHistory.NoDoubleClaim | src/leos_agent/task_queue_backends.py:179-215 | between two claims of one task there is always a retry, a reaper's re-queueing or a resumption |
| LeaseHistory.FinishesAtMostOnce | src/leos_agent/task_queue_backends.py:231-240 | in any run a task completes, fails or times out at most once; afterwards only cancellations reach it |
| LeaseHistory.ReaperSparesTheLiving | src/leos_agent/task_queue_backends.py:309-367 | a reaper takes a task only if the holder's claim or last heartbeat is more than the lease old |
| LeaseHistory.AttemptsAreConserved | src/leos_agent/task_queue_backends.py:179-348 | attempts equal the number of claims, and claims equal returns to the queue plus 0 or 1 depending on the status; cancel, pause and direct retry included |
| LeaseHistory.HistoryExplainsRow | src/leos_agent/task_queue_backends.py:101-367 | the row after any run is determined by the effects that reached it, each of which was enabled when it came |
| LeaseHistory.HolderOfLegal | src/leos_agent/task_queue_backends.py:179-230 | the lease of a running row ends exactly one lease length after its holder's last sign of life |
| LeaseTable.ClaimFindsWork | src/leos_agent/task_queue_backends.py:179-215 | a claim comes back empty iff every queued row is locked by another transaction |
| LeaseTable.ClaimReturnsNext | src/leos_agent/task_queue_backends.py:179-215 | a claim returns the first claimable row by enqueue time and id, and that row is unique |
| LeaseTable.ClaimTakesOldest | src/leos_agent/task_queue_backends.py:179-215 | no queued task that is not skipped was enqueued before the one a claim takes, and of those enqueued at the same time none has an id that is a beginning of its id or smaller where they first differ |
| Tasks.TextLessIff | src/leos_agent/task_queue_backends.py:189-189 | the order of text columns, by beginnings and code points |
| LeaseTable.StepByEffects | src/leos_agent/task_queue_backends.py:101-367 | each statement changes each row exactly by the one effect it has on that row |
| LeaseTable.StepKeepsValid | src/leos_agent/task_queue_backends.py:101-178 | task ids and idempotency keys stay unique under every statement |
| PostgresQueue.PostgresTaskQueue.Enqueue | src/leos_agent/task_queue_backends.py:101-177 | inserts a fresh queued row, or returns the row that holds the key and changes nothing; a used id is an error |
| PostgresQueue.PostgresTaskQueue.Claim | src/leos_agent/task_queue_backends.py:179-215 | takes the oldest queued task that is not skipped, or nothing iff all are; sets worker, attempts, both times and the lease, and no other row |
| PostgresQueue.PostgresTaskQueue.LockedMutate | src/leos_agent/task_queue_backends.py:422-432 | a lock-guarded update, or the error that tells a missing row from a foreign lock |
| PostgresQueue.PostgresTaskQueue.Heartbeat | src/leos_agent/task_queue_backends.py:217-229 | renews the lease of the holder only |
| PostgresQueue.PostgresTaskQueue.Complete | src/leos_agent/task_queue_backends.py:231-234 | finishes the holder's task and clears lock, lease and failure reason |
| PostgresQueue.PostgresTaskQueue.Fail | src/leos_agent/task_queue_backends.py:236-239 | finishes the holder's task with a reason |
| PostgresQueue.PostgresTaskQueue.Retry | src/leos_agent/task_queue_backends.py:241-262 | puts the holder's task back in the queue |
| PostgresQueue.PostgresTaskQueue.Cancel | src/leos_agent/task_queue_backends.py:264-279 | cancels the task in whatever state it is |
| PostgresQueue.PostgresTaskQueue.Pause | src/leos_agent/task_queue_backends.py:281-292 | pauses the holder's task and releases it |
| PostgresQueue.PostgresTaskQueue.Resume | src/leos_agent/task_queue_backends.py:294-307 | re-queues a paused task, else the error says which is missing |
| PostgresQueue.PostgresTaskQueue.ReapExpiredLeases | src/leos_agent/task_queue_backends.py:309-367 | with nothing in between, the two statements list each task whose lease had expired exactly once, as it is afterwards: first those put back in the queue, then those timed out; every row afterwards, column by column |
| PostgresQueue.ReapedRow | src/leos_agent/task_queue_backends.py:309-367 | no row is touched by both reaper statements: an expired row is put back by the first and then out of reach of the second, or is left by the first and timed out by the second |
| RunnerSystem.RetryBound | src/leos_agent/task_queue.py:429-463 | the retry bound (a queued task has attempts left, no task exceeds its maximum) holds in every run of runners and reapers iff the runners have distinct worker ids; the default id of a runner is a constant, so two default runners break it |
| RunnerSystem.NamesakesBreakTheBound | src/leos_agent/task_queue.py:421-427 | the five-step run of two runners with one id that leaves a task queued with no attempt left |
| RunnerSystem.BoundUnderAnyCalls | src/leos_agent/task_queue_backends.py:179-307 | with callers that retry, cancel, pause and resume as they like, every state of a run keeps the retry bound iff no call of it re-queues or resumes a task without attempts left or inserts one that may never be tried |
| RunnerSystem.SettlesByCopy | src/leos_agent/task_queue.py:429-463 | a settlement by the process that holds the task ends it, or re-queues it iff the copy has attempts left; by any other it changes nothing but the process |
| RunnerSystem.ResumingBreaksTheBound | src/leos_agent/task_queue_backends.py:281-307 | pausing and resuming a task at its only attempt is enough |
| RunnerSystem.ChangeLowersPotential | src/leos_agent/task_queue_backends.py:309-367 | every change by a runner or reaper lowers 2·(max − attempts), plus one while running, and nothing else moves it |
| RunnerSystem.ChangesAreBounded | src/leos_agent/task_queue_backends.py:179-348 | a task is changed at most twice its maximum of attempts, heartbeats aside |
| RunnerSystem.RunsTerminate | src/leos_agent/task_queue.py:460-463 | over a fixed set of tasks a run makes at most twice the sum of the maxima many changes |
| RunnerSystem.ProgressUntilFinished | src/leos_agent/task_queue_backends.py:179-367 | some runner or reaper can make a change iff some task is unfinished |
| LocalQueue.RunNextSettles | src/leos_agent/task_queue.py:429-463 | one turn of a runner settles the first queued task for good, or re-queues it with an attempt left; it is never refused and touches no other task |
| LocalQueue.ClaimMeans | src/leos_agent/task_queue.py:255-276 | a claim takes the queued task that comes first in the list, and finds nothing only when none is queued |
| LocalQueue.CheckIsExact | src/leos_agent/task_queue.py:379-416 | a check lists a task and leaves it timed out iff it was running and its last heartbeat is longer ago than the heartbeat timeout, or its start than the runtime timeout; it notes the heartbeat first; all other tasks stay as they are |
| LocalQueue.OverdueIsExact | src/leos_agent/task_queue.py:379-416 | a watchdog check lists exactly the running tasks past a limit, each once |
| LocalQueue.WatchTask | src/leos_agent/task_queue.py:379-416 | a check times out exactly those tasks and leaves the others alone, in whatever order it walks them |
| TaskQueues.TaskQueue.Enqueue | src/leos_agent/task_queue.py:215-253 | adds a task object to the dictionary, the list, the index and the database, or hands back the one that has the key |
| TaskQueues.TaskQueue.Claim | src/leos_agent/task_queue.py:255-276 | takes the first queued task of the list, in place |
| TaskQueues.TaskQueue.Heartbeat | src/leos_agent/task_queue.py:278-284 | notes the time for the holder; other workers and unknown tasks raise |
| TaskQueues.TaskQueue.Complete | src/leos_agent/task_queue.py:286-290 | finishes the holder's task; the failure reason is kept |
| TaskQueues.TaskQueue.Fail | src/leos_agent/task_queue.py:292-297 | finishes the holder's task with a reason |
| TaskQueues.TaskQueue.Retry | src/leos_agent/task_queue.py:299-317 | re-queues the holder's task at its old place in the list |
| TaskQueues.TaskQueue.Cancel | src/leos_agent/task_queue.py:319-327 | cancels the task in whatever state it is |
| TaskQueues.TaskQueue.Pause | src/leos_agent/task_queue.py:329-336 | pauses the holder's task and releases it |
| TaskQueues.TaskQueue.Resume | src/leos_agent/task_queue.py:338-345 | re-queues a paused task; any other state raises |
| TaskQueues.TaskQueue.Reopen | src/leos_agent/task_queue.py:136-160 | opening a database gives the tasks, order and index that `SqliteMirror.Reload` describes, in fresh objects |
| TaskQueues.Watchdog.Check | src/leos_agent/task_queue.py:379-416 | the loop over all task objects: which of them it lists, with which reason, and what it does to their fields; the others are untouched |
| TaskQueues.TaskRunner.RunNext | src/leos_agent/task_queue.py:429-463 | one turn on the shared task objects does what `LocalQueue.RunNext` says |
| LockStep.QueuesRunInLockStep | src/leos_agent/task_queue.py:215-369 | given the same calls, the two queues answer alike (same task, same kind of error) and hold the same tasks after every call; the lease and the failure reason are not compared |
| LockStep.EnqueueAgreesIff | src/leos_agent/task_queue_backends.py:101-177 | from agreeing states the two enqueues answer alike iff the key is not an empty one that is already stored |
| LockStep.ClaimAgreesIff | src/leos_agent/task_queue.py:255-276 | the two claims answer alike iff the first queued task of the list is also the first by time and id |
| LockStep.FirstQueuedIsOldest | src/leos_agent/task_queue.py:255-276 | when enqueue times do not go back and ties are broken by id, the first queued task of the list was enqueued before every other queued one, ties by id |
| SqliteMirror.RunIsMirrored | src/leos_agent/task_queue.py:162-213 | after every call and check of every run, each row equals the task in memory and the idempotency table equals the index |
| SqliteMirror.ReloadRestoresIff | src/leos_agent/task_queue.py:136-160 | reopening restores all tasks iff no worker is called "None" and no task was enqueued at time zero (read as now) |
| SqliteMirror.ReloadRestoresOrder | src/leos_agent/task_queue.py:136-160 | with strictly increasing enqueue times, reopening restores the order |
| SqliteMirror.OrderSurvivesIff | src/leos_agent/task_queue.py:136-160 | whatever the SELECT answers, reopening restores the order iff enqueue times strictly increase along the list |
| SqliteMirror.BackwardClockLosesOrder | src/leos_agent/task_queue.py:139-139 | where the clock went back between two enqueues, no answer of the SELECT restores the order |
| SqliteMirror.TieLosesOrder | src/leos_agent/task_queue.py:139-139 | two equal neighbouring enqueue times let an equally good answer of the SELECT reopen with the two swapped |
| AuditChain.VerifyEventRecords | src/leos_agent/audit.py:87-133 | accepts exactly the well-formed chains, and every issue it lists is real |
| AuditChain.AppendKeepsChain | src/leos_agent/audit.py:62-79 | appending to a chain gives a chain |
| AuditChain.PrefixIsChain | src/leos_agent/audit.py:87-133 | acceptance is prefix-closed |
| AuditChain.LastHashPinsTheLog | src/leos_agent/audit.py:87-151 | two accepted logs with the same last hash are identical, or contain two different records with one hash |
| AuditChain.AuditLog.AppendEvent | src/leos_agent/audit.py:62-79 | appends the next record of the chain |
| AuditChain.AuditLog.Record | src/leos_agent/audit.py:47-60 | appends one entry, as the screen leaves it, to a log that stays a valid chain |
| AuditChain.ScreenedMeans | src/leos_agent/audit.py:47-60 | the screen leaves an entry as it is, or puts a notice of its type in its place iff its message, a key of its payload or a text in it is secret-like |
| AuditReplay.ReplayRecords | src/leos_agent/replay.py:36-151 | replays the task events of a verified log, and nothing of one that fails verification |
| AuditReplay.ReplayAgreesIff | src/leos_agent/replay.py:124-151 | for every run of queue, watchdog and runner on one log, the replayed state of a task is its real one iff its latest status change was not a pause or a resumption |
| AuditReplay.TurnIsRun | src/leos_agent/task_queue.py:429-463 | a runner's turn is a run of queue calls and log entries, so the agreement covers runners |
| ScreenedReplay.ReplayAgreesThroughScreenIff | src/leos_agent/replay.py:36-151 | over the log of every run, whatever entries the secret screen replaced in it: the replayer knows a task iff an insertion of it passed the screen, and gives it its real status iff the latest event it shows led to the same status as the latest event there was; the screen changes the log only |
| BurstDetector.BurstCheck | src/leos_agent/audit.py:174-196 | reports a burst iff some threshold-many failure events, in any positions, span more than nothing and at most the window; a threshold t below one makes it look for n + t of the n failures, and end in an index error when there is no such burst |
| BurstDetector.WindowIsBurst | src/leos_agent/audit.py:174-196 | neighbours in the sorted list come from such events |
| BurstDetector.BurstHasWindow | src/leos_agent/audit.py:174-196 | such events leave neighbours in the sorted list |
| TokenBuckets.WindowBound | src/leos_agent/server/app.py:78-86 | between any two calls at most capacity + rate · elapsed requests pass |
| TokenBuckets.AllowIffItFits | src/leos_agent/server/app.py:78-86 | a request is granted iff that breaks no window bound that ends with it |
| TokenBuckets.GrantedInFull | src/leos_agent/server/app.py:78-86 | with the numbers: a granted request fits every window that ends with it, room being capacity plus rate times elapsed |
| TokenBuckets.RefusedInFull | src/leos_agent/server/app.py:78-86 | a refused one would have overfilled some window |
| TokenBuckets.GreedyIsOptimal | src/leos_agent/server/app.py:70-86 | no choice of requests that respects all window bounds has granted more at any point of the run |
| TokenBuckets.TokensInRange | src/leos_agent/server/app.py:78-86 | the tokens stay between zero and the capacity |
| TokenBuckets.SpentAtMost | src/leos_agent/server/app.py:78-86 | tokens left plus grants since a call never exceed what came in |
| TokenBuckets.FullSinceSomeCall | src/leos_agent/server/app.py:81-81 | the tokens found are all that came in since some call that found the bucket full |
| TokenBuckets.TokenBucket.Allow | src/leos_agent/server/app.py:78-86 | the answers over the life of a bucket are those the theorems speak of |
| GitHubRepository.CompensationIsExact | src/leos_agent/github_tools.py:153-235 | any run that creates fresh unprotected branches, updates files on them and opens pull requests is undone without trace in branches and files by its rollbacks in reverse, all of which succeed |
| GitHubRepository.CompensationRestores | src/leos_agent/github_tools.py:541-735 | the same from within a run: outside the branches it already had, branches and files are as before |
| GitHubRepository.WorkBranchIsUndone | src/leos_agent/github_tools.py:541-735 | one work branch with no entry and no files: creating it, any updates with any guards and any pull requests are undone exactly |
| GitHubRepository.CreateUndoIff | src/leos_agent/github_tools.py:153-170 | creating a branch and rolling back is a round trip iff the branch is fresh and not protected |
| GitHubRepository.UpdateUndoIff | src/leos_agent/github_tools.py:646-671 | an update can always be rolled back; files are restored iff the file existed, the branch entry iff it was the hash of the old content |
| GitHubRepository.UpdatesAreUndone | src/leos_agent/github_tools.py:612-671 | updates of branches that existed before: reverse rollbacks bring back every file that was there, and leave new files with what was first written |
| GitHubRepository.EntriesAreLeft | src/leos_agent/github_tools.py:612-671 | after all rollbacks of updates on branches that existed before, a branch points at the content that the first update of an existing file on it found; without such an update, at what the run left |
| GitHubRepository.UpdatesUndoneIff | src/leos_agent/github_tools.py:612-671 | a whole run of updates and pull requests on branches that existed before is undone in branches and files iff no update added a file and each updated branch pointed at the content of the file updated first on it |
| GitHubRepository.PullRequestsAreClosed | src/leos_agent/github_tools.py:727-735 | rollback closes every pull request a step opened or found under its idempotency key, also one from before the run, and no other |
| GitHubRepository.CredentialsAreDropped | src/leos_agent/github_tools.py:317-350 | rollbacks drop every credential kept for them, except those of updates that wrote a new file |
| GitHubTools.InMemoryGitHubClient.CreateBranch | src/leos_agent/github_tools.py:153-160 | points the branch at the base's entry and copies the base's files, in a loop |
| GitHubTools.InMemoryGitHubClient.DeleteBranch | src/leos_agent/github_tools.py:162-169 | removes the branch and exactly its files; protected branches are refused |
| GitHubTools.InMemoryGitHubClient.UpdateFile | src/leos_agent/github_tools.py:177-199 | succeeds iff an expected sha is the sha of a file that is there, and an expected content is that of the file, or empty where there is none; writes file and branch entry and returns the file as it was; a refusal changes nothing |
| GitHubTools.InMemoryGitHubClient.OpenPr | src/leos_agent/github_tools.py:201-231 | opens a pull request, or returns the one under the same key |
| GitHubTools.InMemoryGitHubClient.ClosePr | src/leos_agent/github_tools.py:233-235 | closes the pull request |
| GitHubTools.GitHubToolbox.CreateBranch | src/leos_agent/github_tools.py:514-539 | executes the step and keeps what undoing it needs |
| GitHubTools.GitHubToolbox.UpdateFile | src/leos_agent/github_tools.py:602-644 | succeeds iff a guard is given and both hold; keeps the previous file and the credential |
| GitHubTools.GitHubToolbox.OpenPr | src/leos_agent/github_tools.py:695-725 | executes the step and keeps the number |
| GitHubTools.GitHubToolbox.RollBack | src/leos_agent/github_tools.py:541-735 | undoes one step and takes its credential where the source does |
| GitHubTools.GitHubToolbox.RollBackAll | src/leos_agent/transactions.py:1047-1126 | tries every token, last first |
| PlanOutcomes.CompletesIff | src/leos_agent/transactions.py:86-606 | a plan completes iff at every step, in order: nothing is raised, no gate refuses, the preconditions hold, its key is new, the policy approves or a human does, the dry run and the tool work, and output, predictions and postconditions are accepted |
| PlanOutcomes.FirstFailureDecides | src/leos_agent/transactions.py:86-606 | otherwise the first step that does not pass all this ends the run: which of the checks it fails first decides whether the run stops or an exception escapes, and the status of that step; later steps keep theirs, earlier ones with work are rolled back by a stop |
| Transactions.AllOrNothing | src/leos_agent/transactions.py:86-606 | a plan on branches of its own is done in full and verified; or stopped, with branches and files as before and every step that had worked rolled back; or, only if an exception escapes, left as far as it came. No tool works unless policy or a human agreed |
| Transactions.EveryRun | src/leos_agent/transactions.py:86-606 | for any plan: a stop undoes exactly the steps done so far, last first; an escaping exception undoes none |
| Transactions.EscapesIff | src/leos_agent/transactions.py:86-606 | an exception escapes iff something raises, or the policy has no decision, at a step that the run reaches and at a moment it gets to there |
| Transactions.EscapeLeavesWork | src/leos_agent/transactions.py:86-606 | in any repository: a branch was created, the next step raises, and the branch stays |
| Transactions.OnlyExceptionsEscape | src/leos_agent/transactions.py:86-606 | when nothing raises, the third outcome cannot happen |
| Transactions.UnwindRollsBackAll | src/leos_agent/transactions.py:1047-1126 | unwinding tries every rollback even when one fails, and marks each step by the result |
| Transactions.KeysAreRecordedOnce | src/leos_agent/transactions.py:825-854 | over any number of plans on one state, an idempotency key is recorded as used at most once |
| Transactions.UsedKeyBlocks | src/leos_agent/transactions.py:825-842 | a plan with a used-up key never completes, whatever the gates answer |
| Transactions.UndoneKeysStayUsed | src/leos_agent/transactions.py:844-854 | keys of verified steps stay used up although the steps are rolled back |
| Transactions.RetryAfterUndoingFails | src/leos_agent/transactions.py:825-854 | so a plan that was stopped after a keyed step had been verified can never be carried out again on the same state, whatever the gates answer |
| Transactions.RerunCompletesIff | src/leos_agent/transactions.py:86-606 | a plan on branches of its own that was stopped and could have been carried out is carried out by running it again iff the stopped run had got past no keyed step |
| Transactions.RerunObjectCompletesIff | src/leos_agent/transactions.py:608-636 | the same plan object is carried out by running it again iff, moreover, its goal did not end failed |
| Transactions.FinalGoalCanStart | src/leos_agent/goals.py:156-223 | the transition to the final status of a run is always allowed, and from there the plan can be started again iff the goal has not failed |
| Transactions.ExecutorNeverCompletesTask | src/leos_agent/transactions.py:623-636 | a goal ends partly done even if every step was verified, so a runner on top of the executor re-queues its task while attempts are left and then fails it |
| RunnerExecutions.TaskIsTriedToTheEnd | src/leos_agent/task_queue.py:429-463 | whatever its executions come to, a task alone in the queue is tried once a turn, on the state and the plan object the attempt before left, until its attempts are used up, and has then failed |
| RunnerExecutions.EffectsAreRepeated | src/leos_agent/kernel.py:91-92 | a plan without keys that only reads, creates branches and opens pull requests, every gate of which agrees, is carried out in full at every attempt: its effects are there as often as the task was tried |
| RunnerExecutions.PullRequestsPileUp | src/leos_agent/github_tools.py:201-231 | pull requests without keys: one more of each at every attempt |
| RunnerExecutions.KeyedPlanCompletesOnce | src/leos_agent/transactions.py:825-854 | with one keyed step anywhere in the plan, at most one of all attempts completes, whatever the gates answer |
| RunnerExecutions.FirstKeyProtects | src/leos_agent/transactions.py:825-854 | once the key of the first step is used up, all later attempts leave the world as it is |
| LaterAttempts.SurvivesIff | src/leos_agent/transactions.py:825-854 | a plan on branches of its own that has completed keeps branches and files through all later attempts, whatever their gates answer, iff it creates no branch before its first keyed step (without keys: none at all) |
| LaterAttempts.LateKeyDeletesTheBranch | src/leos_agent/transactions.py:825-854 | a completed plan that creates a branch before its first keyed step: the branch is there, and the next attempt, every gate agreeing, is stopped at the used-up key and deletes the branch with its files |
| LaterAttempts.LateKeyHappens | src/leos_agent/transactions.py:825-854 | in any repository with the branch vacant: created by the first step, then a keyed step; the first attempt completes, the second deletes the branch |
| RepeatedWork.SecondAttemptCompletesIff | src/leos_agent/github_tools.py:177-199 | a plan without keys on a branch of its own, every gate agreeing: after a completed first attempt the second completes iff every file that the plan adds to what the base has ends empty; otherwise it is stopped and the branch is gone |
| RepeatedWork.AllAttemptsCompleteIff | src/leos_agent/task_queue.py:429-463 | of two or more attempts at such a plan all complete iff every added file ends empty, and they then leave the files of the branch as the first did |
| RepeatedWork.AddedFileIsLost | src/leos_agent/github_tools.py:177-199 | in any repository with the branch vacant: create a branch, add a file with content under the only guard a new file can pass; the first attempt completes, the second is stopped at that guard and deletes the branch |
| TransactionManagers.TransactionManager.ExecutePlan | src/leos_agent/transactions.py:86-606 | the loop over the steps, in place, does what the theorems speak of |
| TransactionManagers.TransactionManager.Rollback | src/leos_agent/transactions.py:1047-1126 | the loop over the stack, in place |
| PolicyDecisions.ApprovedIff | src/leos_agent/policy.py:490-536 | approval means: no rule matches or raises, nothing required is denied or reserved for humans, and the grant in force, or the profile, covers permissions, risk and reversibility |
| DecisionsInFull.DecideMeans | src/leos_agent/policy.py:490-536 | what is decided where no rule matches: denial, then human approval, then approval, by required permissions, risk, reversibility and the grant in force, which has to be the principal's, for the tool, unexpired and not used up |
| DecisionsInFull.GrantInForce | src/leos_agent/policy.py:86-106 | the grant in force is the first that is the principal's, lists the tool or none, has no expiry or one not passed, and no limit or one not reached; there is none iff no grant is such or there is no principal |
| DecisionsInFull.RuleMatches | src/leos_agent/policy.py:46-70 | a rule matches iff every condition is met, with what each kind of condition asks for; the first that is not, or that is malformed, decides |
| DecisionsInFull.FirstMatchDecides | src/leos_agent/policy.py:538-542 | the first rule that matches decides, unless one before it raises |
| PolicyDecisions.ApprovalIsDownwardClosed | src/leos_agent/policy.py:46-70 | requiring more, risking more, or facing a stricter policy (more denials, human gates or rules, fewer permissions, a lower limit) never turns a step into an approved one |
| PolicyDecisions.EscapesRuleIff | src/leos_agent/policy.py:46-70 | a step that is hard to undo is approved where its reversible twin is not iff it is cleared, hence inconsequential, and a rule that asks for reversibility matches the twin or raises on it |
| PolicyDecisions.GrantRestrictsIff | src/leos_agent/policy.py:482-536 | dropping the grants turns a step into an approved one iff a grant is in force that denies something required, does not cover it, or caps the risk below the step, and the profile alone clears the step |
| PolicyDecisions.BothHappen | src/leos_agent/policy.py:46-70 | two policies in which these happen |
| PolicyDecisions.RulesNeverApprove | src/leos_agent/policy.py:29-35 | no rule list can approve a step |
| PolicyDecisions.WizardIsConservative | src/leos_agent/policy_wizard.py:57-75 | what a generated profile does with any step: denial iff a permission was not granted, approval iff only reading permissions are needed, the risk is within the limit and the step is reversible or inconsequential |
| PolicyEngines.PolicyEngine.Matches | src/leos_agent/policy.py:46-70 | the loop over the conditions of a rule |
| PolicyEngines.PolicyEngine.DecideByRules | src/leos_agent/policy.py:538-542 | the loop over the rules |
| PolicyEngines.PolicyEngine.MatchingGrant | src/leos_agent/policy.py:482-488 | the loop over the grants |
| PolicyEngines.PolicyEngine.Decide | src/leos_agent/policy.py:490-536 | the decision of the engine object is the decision the theorems speak of |
| PolicyEngines.PolicyEngine.RecordGrantUse | src/leos_agent/transactions.py:694-698 | charges exactly the grant that applies, so no grant is used more often than it allows |
| MemoryStores.RecallForgetsNothing | src/leos_agent/memory.py:143-175 | over any run, recalling what has not expired gives what a store that never purges would give |
| MemoryStores.PurgeIsSeenIff | src/leos_agent/memory.py:165-175 | a purge changes the answer to a query iff it removes a record of that answer |
| MemoryStores.FilterTwice | src/leos_agent/memory.py:93-163 | filtering the index entry of a key is filtering the whole list |
| MemoryStores.MemoryStore.Remember | src/leos_agent/memory.py:102-141 | adds the record to list, index and file; a confidence outside 0 to 1, a negative time to live, or a secret value that is no reference is refused and changes nothing |
| MemoryStores.MemoryStore.Recall | src/leos_agent/memory.py:143-163 | the index answers as a scan of the list would: key, scope, type and, where asked, not at or past creation plus time to live |
| MemoryStores.MemoryStore.PurgeExpired | src/leos_agent/memory.py:165-175 | keeps exactly the records not expired at their reading of the clock and returns how many went |
| MemoryStores.MemoryStore.Open | src/leos_agent/memory.py:93-100 | loads a file, or raises iff it holds a record that is not accepted |
| MemoryStores.MemoryStore.Reopen | src/leos_agent/memory.py:177-183 | the file always restores the list |
| Sanitizer.RejectAgreesWithRedact | src/leos_agent/sanitization.py:39-72 | what the rejecting mode lets through is what the redacting mode returns |
| Sanitizer.FixedPointsAreClean | src/leos_agent/sanitization.py:39-99 | both modes leave alone exactly the values that are JSON-like and free of secret-like strings and keys |
| Sanitizer.OncePassesIff | src/leos_agent/sanitization.py:39-99 | one redaction gives such a value iff it holds no secret and nothing that is copied unscreened is secret-like |
| Sanitizer.TwoPassesSettleIff | src/leos_agent/sanitization.py:39-99 | two redactions reach a fixed point that the rejecting mode accepts iff no enum member holds something one redaction does not settle |
| Sanitizer.PlainEnumsSettle | src/leos_agent/sanitization.py:47-48 | enum members with plain values always meet that condition |
| Sanitizer.SecretsNeedMore | src/leos_agent/sanitization.py:87-90 | a secret needs two redactions, one inside an enum member three |
| Sanitizer.LastValueStays | src/leos_agent/sanitization.py:57-62 | of several keys that are redacted to one, the last value stays |
| Sanitizer.SanitizeForBoundary | src/leos_agent/sanitization.py:39-72 | the recursion with its two dictionary loops |
| PlanJson.PlanRoundTrip | src/leos_agent/serialization.py:151-170 | a plan can be written iff all its values are expressible in JSON; it is read back the same up to creation time, predictions, report and tuples; and writing that again gives the same document |
| PlanJson.StepBack | src/leos_agent/serialization.py:112-148 | the same for a step with its three condition lists |
| PlanJson.ConditionBack | src/leos_agent/serialization.py:93-109 | the same for a condition, whose value and trust level are left out when absent |
| PlanJson.GoalBack | src/leos_agent/serialization.py:32-64 | the same for a goal with its criteria and budget |
| PlanJson.BudgetBack | src/leos_agent/serialization.py:67-90 | a valid budget is read back the same |
| PlanJson.ValueBack | src/leos_agent/serialization.py:151-170 | a value is expressible iff it can be written, and comes back with lists in place of tuples |
| PlanDefaults.BareStep | src/leos_agent/serialization.py:130-148 | a document with a tool name alone is a pending step of low risk that is not to be undone, without permissions, key or conditions |
| PlanDefaults.BareGoal | src/leos_agent/serialization.py:51-64 | one with a description and a status is a goal of priority 5 with nothing else |
| PlanDefaults.BareBudget | src/leos_agent/serialization.py:80-90 | the empty document is a budget without limits, up to critical risk |
| PlanDefaults.BarePlan | src/leos_agent/serialization.py:166-170 | a goal alone is a plan without steps or budget; without a goal there is no plan |
| RuntimeStores.LogRefinesMaps | src/leos_agent/runtime_store.py:40-181 | after any run of saves the log accepts, last-match scans answer every query as the maps do, in stored form |
| RuntimeStores.SaveKeepsRefinement | src/leos_agent/runtime_store.py:94-140 | each save keeps that agreement |
| RuntimeStores.RefusalAgreesIff | src/leos_agent/runtime_store.py:94-140 | after a save the log refuses, the stores agree iff the maps refuse it too or already hold the same, in stored form, under its name |
| RuntimeStores.AlwaysRefinesIff | src/leos_agent/runtime_store.py:40-181 | in runs whose callers go on after refusals, the stores agree after every save iff every refusal was of that kind |
| RuntimeStores.AcceptedIff | src/leos_agent/runtime_store.py:94-140 | with nothing secret-like, the log accepts a save iff the maps do and its values are expressible |
| RuntimeStores.GoalDictBack | src/leos_agent/runtime_store.py:184-214 | a goal comes back with the default budget and lists in place of tuples |
| PlanDefaults.BareStoredGoal | src/leos_agent/runtime_store.py:202-214 | in the runtime store a goal needs a description and an identifier, and starts as created |
| RuntimeStores.ListedForGoal | src/leos_agent/runtime_store.py:65-68 | an event is listed for a goal iff it was saved and has an entry "goal_id" with the id of that goal |
| RuntimeStores.ListedInOrder | src/leos_agent/runtime_store.py:126-130 | events are listed in the order in which they were appended |
| JsonLines.ReadBackIff | src/leos_agent/runtime_store.py:146-170 | records at which the encoder is faithful are read back iff none of their texts holds a character at which lines are split; otherwise reading raises |
| JsonLines.OneSeparatorSpoilsTheFile | src/leos_agent/runtime_store.py:160-170 | one record with U+2028 in its text makes the whole file unreadable, whatever was saved before and after it |
| JsonLines.SplitsAtBreak | src/leos_agent/runtime_store.py:160-164 | a line ends at the first of ten characters, a carriage return with its line feed being one break |
| JsonLines.BlanksArePassedOver | src/leos_agent/runtime_store.py:164-169 | lines of blanks are passed over; every other line has to be read as an object |
| JsonTexts.PlainRecordsAreFaithful | src/leos_agent/runtime_store.py:146-158 | the text that `json.dumps` writes for an object without numbers is read back by a recursive-descent reader, which reads no proper beginning of it: the encoder is faithful at these records |
| JsonTexts.EscapesAre | src/leos_agent/runtime_store.py:149-149 | quotes, backslashes and control characters are escaped, five of these by letter and the others by number; nothing else is |
| JsonTexts.PlainFileReadsBackIff | src/leos_agent/runtime_store.py:146-170 | a file of such records is read back as written iff no string or key in any of them holds U+0085, U+2028 or U+2029; otherwise reading raises |
| JsonTexts.SomeFileIsSpoilt | src/leos_agent/runtime_store.py:146-170 | one description with U+2028 makes any file of such records unreadable |
| RuntimeStoreFiles.JsonlRuntimeStore.SaveGoal | src/leos_agent/runtime_store.py:94-95 | appends one line of text, or changes nothing |
| RuntimeStoreFiles.JsonlRuntimeStore.SavePlan | src/leos_agent/runtime_store.py:104-110 | appends one line of text, or changes nothing |
| RuntimeStoreFiles.JsonlRuntimeStore.AppendRuntimeEvent | src/leos_agent/runtime_store.py:122-124 | appends one line of text, or changes nothing |
| RuntimeStoreFiles.JsonlRuntimeStore.SaveCheckpoint | src/leos_agent/runtime_store.py:132-140 | replaces the value under the key, or changes nothing |
| RuntimeStoreFiles.ReadJsonl | src/leos_agent/runtime_store.py:156-170 | the loop over the lines, with its errors |
| RuntimeStoreFiles.JsonlRuntimeStore.LoadGoal | src/leos_agent/runtime_store.py:97-102 | the scan of what the file reads back as; where the encoder is faithful at what was saved, that is the log, and an error iff the text of a goal holds a line separator |
| RuntimeStoreFiles.JsonlRuntimeStore.LoadPlan | src/leos_agent/runtime_store.py:112-120 | the same for plans |
| RuntimeStoreFiles.JsonlRuntimeStore.ListRuntimeEvents | src/leos_agent/runtime_store.py:126-130 | the events the file reads back as, in order, filtered by goal; the same for events |
| RuntimeStoreFiles.InMemoryRuntimeStore.AppendRuntimeEvent | src/leos_agent/runtime_store.py:61-63 | appends the event if it is free of secrets |
| RuntimeStoreFiles.InMemoryRuntimeStore.ListRuntimeEvents | src/leos_agent/runtime_store.py:65-68 | the events in order, filtered by goal |

## Left out

- SQL text, drivers, connections and their errors: each statement is one atomic guarded update of the table.
- `FOR UPDATE SKIP LOCKED`: the rows that other transactions hold are a parameter of the claim.
- The order of text columns is that of code points; a database with another collation may break ties in another order.
- Audit entries of the Postgres queue, and `get`, `tasks` and the secret check of plans in both queues.
- PostgresQueue.PostgresTaskQueue.Enqueue: the secret check of the plan and the race of two inserts inside one enqueue are not modelled; the statement is atomic.
- LocalQueue.RunNextSettles: the plan object that the kernel changes while it runs is not modelled; the outcome of the run is a parameter.
- SqliteMirror.ReloadRestoresIff: the plan column is an opaque text that never changes after the insert, so a plan object that a run changed counts as restored although the code does not write it back.
- AuditReplay.ReplayRecords: goals, plans, steps, rollbacks and the world state of the replay are not modelled, only tasks.
- AuditChain.AuditLog.Record: the text of the reason for blocking an entry is not modelled; the file behind the log is not modelled.
- BurstDetector.BurstCheck: event times that are no numbers are not modelled; the other two detector rules are left out.
- TokenBuckets.TokenBucket.Allow: the lock is taken as given, calls come one at a time and the clock does not go back; floats are reals; a negative capacity or refill rate is not modelled.
- GitHubTools.GitHubToolbox.RollBack: credential vaults, the count of accepted tokens and the read, comment and close tools are not modelled; the tools' separate credential dictionaries are one dictionary with the tool in the key.
- GitHub over HTTP, app authentication, sandbox runners and network tools.
- Transactions.AllOrNothing: the gates (attestation, production and egress policy, sandbox, secrets, causal contracts, approval packets) are answers given to the executor; the budget check, manual recovery packets and rollbacks blocked by an egress policy are not modelled; a tool that raises halfway through its own work is not modelled.
- Transactions.EveryRun: the same, and the same holds for `EscapesIff`, `RerunCompletesIff` and the theorems of `RunnerExecutions`, `LaterAttempts` and `RepeatedWork`.
- Transactions.UnwindRollsBackAll: rollbacks blocked by an egress policy are not modelled.
- Transactions.EscapeLeavesWork: one family of runs; `EscapesIff` is the general statement.
- TransactionManagers.TransactionManager.ExecutePlan: the goal's status before and after the loop is modelled by `Transactions.ExecuteObject`, not in the class.
- TransactionManagers.TransactionManager.Rollback: the egress test and the recovery records are not modelled.
- GitHubTools.GitHubToolbox.RollBackAll: rollbacks blocked by an egress policy are not modelled.
- RunnerExecutions.EffectsAreRepeated: plans with updates are the subject of `RepeatedWork`; one task in the queue, one runner, and a process that is not restarted in between.
- RepeatedWork.SecondAttemptCompletesIff: plans with one branch, created by the first step; keys and gates that disagree are the subject of `LaterAttempts`.
- Transactions.ExecutorNeverCompletesTask: the agent loop, which can move a goal on after evaluating it, is not part of this model.
- PolicyEngines.PolicyEngine.Decide: the reason texts and the matched rule's name are not modelled.
- PolicyDecisions.WizardIsConservative: stripping blanks from the profile's name, and the egress and gate settings that decisions do not read, are not modelled.
- MemoryStores.MemoryStore.Remember: values are texts, and the fields that neither recall nor purging reads are left out; a value that JSON refuses raises after the list has changed and is not modelled.
- MemoryStores.MemoryStore.Open: files that are no JSON or carry unknown fields are not modelled.
- MemoryStores.MemoryStore.Reopen: the file is the list itself; its text is not modelled.
- Sanitizer.SanitizeForBoundary: the regular expressions are one predicate on strings; the path in the error text is not modelled.
- PlanJson.PlanRoundTrip: documents of other shapes than the writer's count as unreadable even where the source would convert a value; non-finite floats and dictionary keys that are no strings are not modelled.
- JsonLines.ReadBackIff: the encoder is a parameter that is to be faithful at the records written, which `JsonTexts` proves for objects of strings, truth values, nulls, lists and objects with distinct keys; records with numbers are not proved faithful.
- JsonTexts.PlainRecordsAreFaithful: numbers count as unreadable, and so do escaped surrogates, which the encoder never writes.
- RuntimeStores.LogRefinesMaps: plans are values; the in-memory store keeps the plan object itself, so a plan changed after it was saved differs from what the log holds.
- RuntimeStoreFiles.JsonlRuntimeStore.SaveCheckpoint: the checkpoint file is replaced as a whole and read back as written.
- Planner, goal evaluator, agent loop, command line, web routes, prompts and model adapters.
