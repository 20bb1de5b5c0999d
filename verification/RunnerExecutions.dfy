/** A task runner on top of the executor: the attempts of one task, what they do to the repository,
    and what idempotency keys change about it. */
module RunnerExecutions {
  import opened Tasks
  import Plans
  import R = GitHubRepository
  import T = Transactions
  import L = LocalQueue

  /** What one attempt leaves to the next: the plan object and the agent's state. */
  datatype Agent = Agent(goal: Plans.GoalStatus, statuses: seq<Plans.StepStatus>, world: R.World, recorded: seq<string>)

  function Attempt(sha: R.Sha, steps: seq<T.PlanStep>, answers: seq<T.Answers>, a: Agent): (r: (Agent, T.Ending))
    requires |steps| == |answers| == |a.statuses|
    ensures |r.0.statuses| == |steps|
  {
    var (goal, end, ending) := T.ExecuteObject(sha, a.goal, steps, answers, a.statuses, a.world, a.recorded);
    (Agent(goal, end.statuses, end.world, end.recorded), ending)
  }

  /** How the runner hears of it. */
  function Heard(a: Agent, ending: T.Ending): L.KernelOutcome {
    if ending == T.Escaped then L.RunRaised("") else L.RunEnded(a.goal == Plans.GoalSucceeded, Plans.GoalStatusName(a.goal))
  }

  /** One turn: the runner claims the first queued task, if any, and runs its plan. */
  function Turn(secretLike: string -> bool, sha: R.Sha, steps: seq<T.PlanStep>, answers: seq<T.Answers>,
                s: L.QueueState, a: Agent, w: WorkerId, now: real): (r: (L.QueueState, Agent))
    requires |steps| == |answers| == |a.statuses|
    ensures |r.1.statuses| == |steps|
  {
    if L.FirstQueued(s.tasks, s.order).None? then (L.RunNext(secretLike, s, w, now, L.RunRaised("")).0, a)
    else
      var (next, ending) := Attempt(sha, steps, answers, a);
      (L.RunNext(secretLike, s, w, now, Heard(next, ending)).0, next)
  }

  predicate Fitting(steps: seq<T.PlanStep>, tries: seq<seq<T.Answers>>) {
    forall i :: 0 <= i < |tries| ==> |tries[i]| == |steps|
  }

  /** A turn for every list of answers. */
  function Turns(secretLike: string -> bool, sha: R.Sha, steps: seq<T.PlanStep>, tries: seq<seq<T.Answers>>,
                 s: L.QueueState, a: Agent, w: WorkerId, now: real): (r: (L.QueueState, Agent))
    requires Fitting(steps, tries) && |a.statuses| == |steps|
    ensures |r.1.statuses| == |steps|
  {
    if tries == [] then (s, a)
    else
      var n := |tries| - 1;
      var (s1, a1) := Turns(secretLike, sha, steps, tries[..n], s, a, w, now);
      Turn(secretLike, sha, steps, tries[n], s1, a1, w, now)
  }

  // ---------- how often a task is tried ----------

  /** The queue holds one task, queued with these attempts behind it. */
  predicate OnlyTask(s: L.QueueState, t: TaskId) {
    s.order == [t] && t in s.tasks
  }

  lemma OnlyTaskIsFirst(s: L.QueueState, t: TaskId)
    requires OnlyTask(s, t)
    ensures L.FirstQueued(s.tasks, s.order) == if s.tasks[t].status == Queued then Some(t) else None
  {
    assert s.order[1..] == [];
  }

  lemma AttemptNeverSucceeds(sha: R.Sha, steps: seq<T.PlanStep>, answers: seq<T.Answers>, a: Agent)
    requires |steps| == |answers| == |a.statuses|
    ensures var (next, ending) := Attempt(sha, steps, answers, a);
      ending != T.Escaped ==> next.goal != Plans.GoalSucceeded
  {
    hide T.ExecutePlan;
  }

  lemma TurnTries(secretLike: string -> bool, sha: R.Sha, steps: seq<T.PlanStep>, answers: seq<T.Answers>,
                  s: L.QueueState, a: Agent, w: WorkerId, now: real, t: TaskId)
    requires |steps| == |answers| == |a.statuses| && L.WellFormed(s) && OnlyTask(s, t) && s.tasks[t].status == Queued
    ensures var (s1, a1) := Turn(secretLike, sha, steps, answers, s, a, w, now);
      && L.WellFormed(s1) && OnlyTask(s1, t) && a1 == Attempt(sha, steps, answers, a).0
      && s1.tasks[t].spec == s.tasks[t].spec && s1.tasks[t].attempts == s.tasks[t].attempts + 1
      && s1.tasks[t].status == if s.tasks[t].attempts + 1 < s.tasks[t].spec.maxAttempts then Queued else Failed
  {
    OnlyTaskIsFirst(s, t);
    AttemptNeverSucceeds(sha, steps, answers, a);
    var (next, ending) := Attempt(sha, steps, answers, a);
    L.RunNextSettles(secretLike, s, w, now, Heard(next, ending));
    hide L.RunNext, L.WellFormed, Attempt, L.FirstQueued;
  }

  /** Whatever its executions come to, a task is tried once a turn until its attempts are used up,
      and has then failed. */
  lemma {:induction false} TaskIsTriedToTheEnd(secretLike: string -> bool, sha: R.Sha, steps: seq<T.PlanStep>, tries: seq<seq<T.Answers>>,
                                               s: L.QueueState, a: Agent, w: WorkerId, now: real, t: TaskId)
    requires Fitting(steps, tries) && |a.statuses| == |steps| && L.WellFormed(s) && OnlyTask(s, t)
    requires s.tasks[t].status == Queued && s.tasks[t].attempts + |tries| <= s.tasks[t].spec.maxAttempts
    ensures var (s1, a1) := Turns(secretLike, sha, steps, tries, s, a, w, now);
      && L.WellFormed(s1) && OnlyTask(s1, t) && a1 == Attempts(sha, steps, tries, a)
      && s1.tasks[t].spec == s.tasks[t].spec && s1.tasks[t].attempts == s.tasks[t].attempts + |tries|
      && s1.tasks[t].status == if tries == [] || s1.tasks[t].attempts < s.tasks[t].spec.maxAttempts then Queued else Failed
  {
    if tries != [] {
      var n := |tries| - 1;
      TaskIsTriedToTheEnd(secretLike, sha, steps, tries[..n], s, a, w, now, t);
      var (s1, a1) := Turns(secretLike, sha, steps, tries[..n], s, a, w, now);
      TurnTries(secretLike, sha, steps, tries[n], s1, a1, w, now, t);
      hide Turn, Attempt, L.WellFormed;
    }
  }

  /** The attempts alone. */
  function Attempts(sha: R.Sha, steps: seq<T.PlanStep>, tries: seq<seq<T.Answers>>, a: Agent): (r: Agent)
    requires Fitting(steps, tries) && |a.statuses| == |steps|
    ensures |r.statuses| == |steps|
  {
    if tries == [] then a
    else var n := |tries| - 1; Attempt(sha, steps, tries[n], Attempts(sha, steps, tries[..n], a)).0
  }

  // ---------- without keys, everything is done again ----------

  /** A step without a key whose tool cannot fail. */
  predicate Repeatable(step: T.PlanStep) {
    !T.Keyed(step) && (step.action.Some? ==> !step.action.value.FileStep?)
  }

  lemma GoodStepWorks(sha: R.Sha, step: T.PlanStep, i: nat, e: T.Exec)
    requires Repeatable(step) && i < |e.statuses| && T.WellFormed(e, i)
    ensures T.OneStep(sha, step, T.GOOD, i, e).Continues?
  {
  }

  lemma {:induction false} GoodPlanCompletes(sha: R.Sha, steps: seq<T.PlanStep>, answers: seq<T.Answers>, i: nat, e: T.Exec)
    requires |steps| == |answers| == |e.statuses| && i <= |steps| && T.WellFormed(e, i)
    requires forall j :: 0 <= j < |steps| ==> Repeatable(steps[j]) && answers[j] == T.GOOD
    ensures T.RunSteps(sha, steps, answers, i, e).1 == T.Completed
    decreases |steps| - i
  {
    if i < |steps| {
      GoodStepWorks(sha, steps[i], i, e);
      hide T.OneStep;
      GoodPlanCompletes(sha, steps, answers, i + 1, T.OneStep(sha, steps[i], answers[i], i, e).next);
    }
  }

  function Good(n: nat): (g: seq<T.Answers>)
    ensures |g| == n && forall i :: 0 <= i < n ==> g[i] == T.GOOD
  {
    seq(n, _ => T.GOOD)
  }

  lemma GoodRun(sha: R.Sha, steps: seq<T.PlanStep>, e: T.Exec)
    requires |e.statuses| == |steps| && e.stack == [] && forall j :: 0 <= j < |steps| ==> Repeatable(steps[j])
    ensures var (end, ending) := T.RunSteps(sha, steps, Good(|steps|), 0, e);
      && ending == T.Completed && end.world == R.Run(sha, T.Actions(steps), e.world).0
      && forall j :: 0 <= j < |steps| ==> end.statuses[j] == Plans.Verified
  {
    var answers := Good(|steps|);
    GoodPlanCompletes(sha, steps, answers, 0, e);
    assert T.Done(sha, steps, e.world, 0, e) by {
      assert steps[..0] == [] && R.Run(sha, [], e.world) == (e.world, []);
    }
    hide T.RunSteps, T.Done, R.Run, T.Actions;
    var k := T.EveryRun(sha, steps, answers, 0, e, e.world);
    assert steps[..|steps|] == steps;
  }

  lemma AllVerifiedIsPartlyDone(statuses: seq<Plans.StepStatus>)
    requires forall j :: 0 <= j < |statuses| ==> statuses[j] == Plans.Verified
    ensures T.FinalGoalStatus(statuses) == Plans.GoalPartiallyDone
  {
    T.CountedIffPresent(statuses, Plans.Verified);
    if statuses != [] {
      assert statuses[0] in statuses;
    }
  }

  lemma GoodAttempt(sha: R.Sha, steps: seq<T.PlanStep>, a: Agent)
    requires |a.statuses| == |steps| && T.CanStart(a.goal) && forall j :: 0 <= j < |steps| ==> Repeatable(steps[j])
    ensures var (next, ending) := Attempt(sha, steps, Good(|steps|), a);
      ending == T.Completed && T.CanStart(next.goal) && next.world == R.Run(sha, T.Actions(steps), a.world).0
  {
    var e := T.Exec(a.world, a.statuses, [], a.recorded);
    GoodRun(sha, steps, e);
    AllVerifiedIsPartlyDone(T.RunSteps(sha, steps, Good(|steps|), 0, e).0.statuses);
    hide T.RunSteps, R.Run, T.Actions, T.FinalGoalStatus;
  }

  function Repeat<X>(s: seq<X>, n: nat): seq<X> {
    if n == 0 then [] else Repeat(s, n - 1) + s
  }

  lemma {:induction false} RunConcat(sha: R.Sha, s: seq<R.Step>, t: seq<R.Step>, w: R.World)
    ensures R.Run(sha, s + t, w).0 == R.Run(sha, t, R.Run(sha, s, w).0).0
    decreases s
  {
    if s == [] {
      assert s + t == t;
    } else {
      assert (s + t)[1..] == s[1..] + t && (s + t)[0] == s[0];
      RunConcat(sha, s[1..], t, R.Execute(sha, s[0], w).0);
    }
  }

  function GoodTries(k: nat, n: nat): (r: seq<seq<T.Answers>>)
    ensures |r| == n && forall i :: 0 <= i < n ==> r[i] == Good(k)
  {
    seq(n, _ => Good(k))
  }

  /** A plan without keys and without updates, every gate of which agrees every time, is carried
      out in full at every attempt: its effects are there as often as the task was tried. */
  lemma {:induction false} EffectsAreRepeated(sha: R.Sha, steps: seq<T.PlanStep>, a: Agent, n: nat)
    requires |a.statuses| == |steps| && T.CanStart(a.goal) && forall j :: 0 <= j < |steps| ==> Repeatable(steps[j])
    ensures var end := Attempts(sha, steps, GoodTries(|steps|, n), a);
      T.CanStart(end.goal) && end.world == R.Run(sha, Repeat(T.Actions(steps), n), a.world).0
  {
    if n > 0 {
      var tries := GoodTries(|steps|, n);
      assert tries[..n - 1] == GoodTries(|steps|, n - 1);
      EffectsAreRepeated(sha, steps, a, n - 1);
      GoodAttempt(sha, steps, Attempts(sha, steps, tries[..n - 1], a));
      RunConcat(sha, Repeat(T.Actions(steps), n - 1), T.Actions(steps), a.world);
      hide Attempt, R.Run, T.Actions, T.CanStart;
    }
  }

  /** Pull requests without keys pile up: one more of each at every attempt. */
  lemma {:induction false} PullRequestsPileUp(sha: R.Sha, actions: seq<R.Step>, w: R.World)
    requires forall i :: 0 <= i < |actions| ==> actions[i].PrStep? && !R.HasKey(actions[i].pr.idempotencyKey)
    ensures R.Run(sha, actions, w).0.hub.nextPr == w.hub.nextPr + |actions|
    decreases actions
  {
    if actions != [] {
      PullRequestsPileUp(sha, actions[1..], R.Execute(sha, actions[0], w).0);
    }
  }

  // ---------- with keys ----------

  /** How many of the attempts completed. */
  function Completions(sha: R.Sha, steps: seq<T.PlanStep>, tries: seq<seq<T.Answers>>, a: Agent): nat
    requires Fitting(steps, tries) && |a.statuses| == |steps|
  {
    if tries == [] then 0
    else
      var n := |tries| - 1;
      Completions(sha, steps, tries[..n], a)
      + if Attempt(sha, steps, tries[n], Attempts(sha, steps, tries[..n], a)).1 == T.Completed then 1 else 0
  }

  lemma AttemptKeys(sha: R.Sha, steps: seq<T.PlanStep>, answers: seq<T.Answers>, a: Agent, j: nat)
    requires |steps| == |answers| == |a.statuses| && T.Distinct(a.recorded) && j < |steps| && T.Keyed(steps[j])
    ensures var (next, ending) := Attempt(sha, steps, answers, a);
      && T.Distinct(next.recorded) && a.recorded <= next.recorded
      && (steps[j].key.value in a.recorded ==> ending != T.Completed)
      && (ending == T.Completed ==> steps[j].key.value in next.recorded)
  {
    var e := T.Exec(a.world, a.statuses, [], a.recorded);
    T.KeysAreUsedOnce(sha, steps, answers, 0, e);
    if steps[j].key.value in a.recorded {
      T.UsedKeyBlocks(sha, steps, answers, 0, e, j);
    }
    if T.RunSteps(sha, steps, answers, 0, e).1 == T.Completed {
      CompletedPasses(sha, steps, answers, 0, e, j);
      T.UndoneKeysStayUsed(sha, steps, answers, 0, e, j);
    }
    hide T.RunSteps, T.Passes, T.CanStart, T.FinalGoalStatus;
  }

  lemma {:induction false} CompletedPasses(sha: R.Sha, steps: seq<T.PlanStep>, answers: seq<T.Answers>, i: nat, e: T.Exec, j: nat)
    requires |steps| == |answers| == |e.statuses| && i <= j < |steps| && T.WellFormed(e, i)
    requires T.RunSteps(sha, steps, answers, i, e).1 == T.Completed
    ensures T.Passes(sha, steps, answers, i, e, j)
    decreases |steps| - i
  {
    T.OneStepEnds(sha, steps[i], answers[i], i, e);
    hide T.OneStep;
    if i < j {
      CompletedPasses(sha, steps, answers, i + 1, T.OneStep(sha, steps[i], answers[i], i, e).next, j);
    }
  }

  /** One keyed step is enough: whatever the gates answer, at most one attempt completes. */
  lemma {:induction false} KeyedPlanCompletesOnce(sha: R.Sha, steps: seq<T.PlanStep>, tries: seq<seq<T.Answers>>, a: Agent, j: nat)
    requires Fitting(steps, tries) && |a.statuses| == |steps| && T.Distinct(a.recorded) && j < |steps| && T.Keyed(steps[j])
    ensures var end := Attempts(sha, steps, tries, a);
      && T.Distinct(end.recorded) && a.recorded <= end.recorded
      && Completions(sha, steps, tries, a) <= 1
      && (Completions(sha, steps, tries, a) == 1 ==> steps[j].key.value in end.recorded)
  {
    if tries != [] {
      var n := |tries| - 1;
      KeyedPlanCompletesOnce(sha, steps, tries[..n], a, j);
      AttemptKeys(sha, steps, tries[n], Attempts(sha, steps, tries[..n], a), j);
      hide Attempt, T.Distinct;
    }
  }

  /** When the first step is keyed and its key is used up, an attempt changes nothing. */
  lemma UsedFirstKeyProtects(sha: R.Sha, steps: seq<T.PlanStep>, answers: seq<T.Answers>, a: Agent)
    requires |steps| == |answers| == |a.statuses| && steps != [] && T.Keyed(steps[0]) && steps[0].key.value in a.recorded
    ensures Attempt(sha, steps, answers, a).0.world == a.world
  {
    var e := T.Exec(a.world, a.statuses, [], a.recorded);
    assert T.OneStep(sha, steps[0], answers[0], 0, e).Ends? && T.OneStep(sha, steps[0], answers[0], 0, e).end.world == a.world;
  }

  /** So a plan that has completed once is left as it is by all later attempts. */
  lemma {:induction false} FirstKeyProtects(sha: R.Sha, steps: seq<T.PlanStep>, tries: seq<seq<T.Answers>>, a: Agent)
    requires Fitting(steps, tries) && |a.statuses| == |steps| && T.Distinct(a.recorded)
    requires steps != [] && T.Keyed(steps[0]) && steps[0].key.value in a.recorded
    ensures Attempts(sha, steps, tries, a).world == a.world
  {
    if tries != [] {
      var n := |tries| - 1;
      FirstKeyProtects(sha, steps, tries[..n], a);
      KeyedPlanCompletesOnce(sha, steps, tries[..n], a, 0);
      UsedFirstKeyProtects(sha, steps, tries[n], Attempts(sha, steps, tries[..n], a));
      hide Attempt;
    }
  }
}
