/** What the later attempts of a task runner make of the work of a completed one: an executor that
    is run again creates the branches of its plan again, and its rollbacks delete them. */
module LaterAttempts {
  import opened Tasks
  import Plans
  import R = GitHubRepository
  import T = Transactions
  import opened RunnerExecutions

  predicate CreatesBranch(step: T.PlanStep) {
    step.action.Some? && step.action.value.BranchStep?
  }

  function Created(step: T.PlanStep): R.BranchKey
    requires CreatesBranch(step)
  {
    R.BranchKey(step.action.value.repo, step.action.value.branch)
  }

  // ---------- what unwinding does to a branch ----------

  predicate OnlyPulls(stack: seq<T.Frame>) {
    forall f :: f in stack ==> f.token.PrToken?
  }

  /** Frame `n` holds the creation of the branch, over pull requests only. */
  predicate HoldsBranch(stack: seq<T.Frame>, n: nat, key: R.BranchKey) {
    && n < |stack| && OnlyPulls(stack[..n])
    && stack[n].token.BranchToken? && R.BranchKey(stack[n].token.repo, stack[n].token.branch) == key
  }

  /** One frame less. */
  function Popped(sha: R.Sha, e: T.Exec): (next: T.Exec)
    requires e.stack != [] && forall f :: f in e.stack ==> f.step < |e.statuses|
    ensures next.stack == e.stack[..|e.stack| - 1] && forall f :: f in next.stack ==> f.step < |next.statuses|
  {
    var n := |e.stack| - 1;
    var top := e.stack[n];
    assert top in e.stack;
    var (world, ok) := R.RollBack(sha, top.token, e.world);
    T.Exec(world, e.statuses[top.step := if ok then Plans.RolledBack else Plans.StepFailed], e.stack[..n], e.recorded)
  }

  lemma UnwindPops(sha: R.Sha, e: T.Exec)
    requires e.stack != [] && forall f :: f in e.stack ==> f.step < |e.statuses|
    ensures T.Unwind(sha, e) == T.Unwind(sha, Popped(sha, e))
  {
    hide R.RollBack;
  }

  lemma {:induction false} UnwindingPulls(sha: R.Sha, e: T.Exec)
    requires (forall f :: f in e.stack ==> f.step < |e.statuses|) && OnlyPulls(e.stack)
    ensures T.SameContent(T.Unwind(sha, e).world.hub, e.world.hub)
    decreases |e.stack|
  {
    if e.stack != [] {
      UnwindPops(sha, e);
      assert e.stack[|e.stack| - 1] in e.stack;
      hide T.Unwind;
      UnwindingPulls(sha, Popped(sha, e));
    }
  }

  /** Whatever the rollbacks above it do, the branch is gone in the end, with its files. */
  lemma {:induction false} UnwindingDeletes(sha: R.Sha, e: T.Exec, n: nat, key: R.BranchKey)
    requires (forall f :: f in e.stack ==> f.step < |e.statuses|) && HoldsBranch(e.stack, n, key) && !R.Protected(key.branch)
    ensures R.Vacant(T.Unwind(sha, e).world.hub, key)
    decreases |e.stack|
  {
    UnwindPops(sha, e);
    hide T.Unwind;
    if |e.stack| - 1 == n {
      assert Popped(sha, e).world.hub == R.WithoutBranch(e.world.hub, key);
      hide Popped;
      UnwindingPulls(sha, Popped(sha, e));
    } else {
      hide Popped, R.Vacant;
      assert e.stack[..|e.stack| - 1][..n] == e.stack[..n];
      UnwindingDeletes(sha, Popped(sha, e), n, key);
    }
  }

  lemma GoodStepHolds(sha: R.Sha, step: T.PlanStep, i: nat, e: T.Exec, n: nat, key: R.BranchKey)
    requires i < |e.statuses| && T.WellFormed(e, i) && HoldsBranch(e.stack, n, key) && !R.Protected(key.branch)
    ensures match T.OneStep(sha, step, T.GOOD, i, e)
      case Ends(end, ending) => ending == T.Stopped && R.Vacant(end.world.hub, key)
      case Continues(next) => HoldsBranch(next.stack, n, key)
  {
    UnwindingDeletes(sha, e.(statuses := e.statuses[i := Plans.Blocked]), n, key);
    UnwindingDeletes(sha, e.(statuses := e.statuses[i := Plans.StepFailed]), n, key);
    hide T.Unwind, R.Vacant, R.Effect, R.Execute;
    var m := T.OneStep(sha, step, T.GOOD, i, e);
    if m.Continues? {
      assert m.next.stack[..n] == e.stack[..n];
    }
  }

  /** With every gate agreeing, a run that has created a branch completes or deletes it. */
  lemma {:induction false} GoodRunDeletes(sha: R.Sha, steps: seq<T.PlanStep>, i: nat, e: T.Exec, n: nat, key: R.BranchKey)
    requires i <= |steps| == |e.statuses| && T.WellFormed(e, i) && HoldsBranch(e.stack, n, key) && !R.Protected(key.branch)
    ensures var (end, ending) := T.RunSteps(sha, steps, Good(|steps|), i, e);
      ending == T.Completed || (ending == T.Stopped && R.Vacant(end.world.hub, key))
    decreases |steps| - i
  {
    if i < |steps| {
      GoodStepHolds(sha, steps[i], i, e, n, key);
      hide T.OneStep, HoldsBranch, R.Vacant;
      var m := T.OneStep(sha, steps[i], T.GOOD, i, e);
      if m.Continues? {
        GoodRunDeletes(sha, steps, i + 1, m.next, n, key);
      }
    }
  }

  lemma {:induction false} FirstBranchIsDeleted(sha: R.Sha, steps: seq<T.PlanStep>, k: nat, e: T.Exec, i: nat)
    requires k <= i < |steps| == |e.statuses| && T.WellFormed(e, k) && OnlyPulls(e.stack)
    requires forall m :: k <= m <= i ==> Repeatable(steps[m])
    requires (forall m :: k <= m < i ==> !CreatesBranch(steps[m])) && CreatesBranch(steps[i]) && !R.Protected(Created(steps[i]).branch)
    requires T.RunSteps(sha, steps, Good(|steps|), k, e).1 != T.Completed
    ensures var (end, ending) := T.RunSteps(sha, steps, Good(|steps|), k, e);
      ending == T.Stopped && R.Vacant(end.world.hub, Created(steps[i]))
    decreases i - k
  {
    GoodStepWorks(sha, steps[k], k, e);
    var next := T.OneStep(sha, steps[k], T.GOOD, k, e).next;
    if k < i {
      FirstBranchIsDeleted(sha, steps, k + 1, next, i);
    } else {
      assert next.stack[..|e.stack|] == e.stack;
      GoodRunDeletes(sha, steps, k + 1, next, |e.stack|, Created(steps[i]));
    }
  }

  // ---------- a used-up key on a later step ----------

  predicate Quiet(step: T.PlanStep) {
    step.action.Some? ==> step.action.value.PrStep?
  }

  lemma UnwindingPullsAnyway(sha: R.Sha, i: nat, e: T.Exec, status: Plans.StepStatus)
    requires i < |e.statuses| && T.WellFormed(e, i + 1) && OnlyPulls(e.stack)
    ensures T.SameContent(T.Unwind(sha, e.(statuses := e.statuses[i := status])).world.hub, e.world.hub)
  {
    UnwindingPulls(sha, e.(statuses := e.statuses[i := status]));
  }

  /** A used-up key ends the run, and nothing but the stack is undone. */
  lemma UsedKeyStep(sha: R.Sha, step: T.PlanStep, a: T.Answers, i: nat, e: T.Exec)
    requires i < |e.statuses| && T.WellFormed(e, i) && OnlyPulls(e.stack)
    requires T.Keyed(step) && step.key.value in e.recorded
    ensures var m := T.OneStep(sha, step, a, i, e); m.Ends? && T.SameContent(m.end.world.hub, e.world.hub)
  {
    UnwindingPullsAnyway(sha, i, e, Plans.Blocked);
    hide T.Unwind, T.Perform, OnlyPulls;
  }

  lemma QuietWork(sha: R.Sha, step: T.PlanStep, a: T.Answers, i: nat, e: T.Exec)
    requires i < |e.statuses| && T.WellFormed(e, i) && OnlyPulls(e.stack)
    requires Quiet(step) && T.Perform(sha, step, a, e.world).Some?
    ensures var done := T.Executed(e, i, T.Perform(sha, step, a, e.world).value);
      OnlyPulls(done.stack) && T.WellFormed(done, i + 1) && T.SameContent(done.world.hub, e.world.hub)
  {
  }

  lemma QuietStep(sha: R.Sha, step: T.PlanStep, a: T.Answers, i: nat, e: T.Exec)
    requires i < |e.statuses| && T.WellFormed(e, i) && OnlyPulls(e.stack) && Quiet(step)
    ensures match T.OneStep(sha, step, a, i, e)
      case Ends(end, _) => T.SameContent(end.world.hub, e.world.hub)
      case Continues(next) => OnlyPulls(next.stack) && T.SameContent(next.world.hub, e.world.hub)
  {
    hide T.Unwind, T.Perform, T.Accepted;
    match T.Admit(step, a, e.recorded)
    case Escapes =>
    case Stops(status) => UnwindingPullsAnyway(sha, i, e, status);
    case Proceeds =>
      match T.Perform(sha, step, a, e.world) {
        case None => UnwindingPullsAnyway(sha, i, e, Plans.StepFailed);
        case Some(effect) =>
          QuietWork(sha, step, a, i, e);
          hide T.Executed, OnlyPulls;
          UnwindingPullsAnyway(sha, i, T.Executed(e, i, effect), Plans.StepFailed);
      }
  }

  /** A run that meets a used-up key, or its end, before it has done more than read and open pull
      requests leaves branches and files alone, however it ends. */
  lemma {:induction false} QuietRun(sha: R.Sha, steps: seq<T.PlanStep>, answers: seq<T.Answers>, i: nat, e: T.Exec, j: nat)
    requires |steps| == |answers| == |e.statuses| && i <= j <= |steps| && T.WellFormed(e, i) && OnlyPulls(e.stack)
    requires (forall m :: i <= m < j ==> Quiet(steps[m])) && (j < |steps| ==> T.Keyed(steps[j]) && steps[j].key.value in e.recorded)
    ensures T.SameContent(T.RunSteps(sha, steps, answers, i, e).0.world.hub, e.world.hub)
    decreases j - i
  {
    if i == |steps| {
    } else if i == j {
      UsedKeyStep(sha, steps[i], answers[i], i, e);
      hide T.OneStep;
    } else {
      QuietStep(sha, steps[i], answers[i], i, e);
      T.OneStepKeys(sha, steps[i], answers[i], i, e);
      hide T.OneStep, OnlyPulls;
      var m := T.OneStep(sha, steps[i], answers[i], i, e);
      if m.Continues? {
        QuietRun(sha, steps, answers, i + 1, m.next, j);
      }
    }
  }

  lemma {:induction false} QuietAttempts(sha: R.Sha, steps: seq<T.PlanStep>, tries: seq<seq<T.Answers>>, b: Agent, j: nat)
    requires Fitting(steps, tries) && |b.statuses| == |steps| && T.Distinct(b.recorded) && j <= |steps|
    requires (forall m :: 0 <= m < j ==> Quiet(steps[m])) && (j < |steps| ==> T.Keyed(steps[j]) && steps[j].key.value in b.recorded)
    ensures T.SameContent(Attempts(sha, steps, tries, b).world.hub, b.world.hub)
  {
    if tries != [] {
      var n := |tries| - 1;
      var before := Attempts(sha, steps, tries[..n], b);
      QuietAttempts(sha, steps, tries[..n], b, j);
      if j < |steps| {
        KeyedPlanCompletesOnce(sha, steps, tries[..n], b, j);
      }
      QuietRun(sha, steps, tries[n], 0, T.Exec(before.world, before.statuses, [], before.recorded), j);
      hide T.RunSteps, T.CanStart, T.FinalGoalStatus;
    }
  }

  // ---------- what a legal plan does before it creates a branch ----------

  lemma {:induction false} BeforeFirstBranch(sha: R.Sha, s: seq<R.Step>, x: R.Step, w: R.World)
    requires R.Legal(sha, s + [x], w, {}) && forall y :: y in s ==> !y.BranchStep?
    ensures !x.FileStep? && (x.BranchStep? ==> !R.Protected(x.branch))
    decreases s
  {
    assert s == [] ==> (s + [x])[0] == x;
    if s != [] {
      assert (s + [x])[0] == s[0] && (s + [x])[1..] == s[1..] + [x];
      BeforeFirstBranch(sha, s[1..], x, R.Execute(sha, s[0], w).0);
    }
  }

  lemma {:induction false} ActionsAreOfSteps(steps: seq<T.PlanStep>, y: R.Step)
    requires y in T.Actions(steps)
    ensures exists m :: 0 <= m < |steps| && steps[m].action == Some(y)
  {
    var n := |steps| - 1;
    if y in T.Actions(steps[..n]) {
      ActionsAreOfSteps(steps[..n], y);
    } else {
      assert steps[n].action == Some(y);
    }
  }

  /** Updates come after the creation of their branch, and created branches are not protected. */
  lemma PlanBeforeFirstBranch(sha: R.Sha, steps: seq<T.PlanStep>, w: R.World, i: nat)
    requires R.Legal(sha, T.Actions(steps), w, {}) && i < |steps| && forall m :: 0 <= m < i ==> !CreatesBranch(steps[m])
    ensures CreatesBranch(steps[i]) || Quiet(steps[i])
    ensures CreatesBranch(steps[i]) ==> !R.Protected(Created(steps[i]).branch)
  {
    if steps[i].action.Some? {
      var before, x := T.Actions(steps[..i]), steps[i].action.value;
      T.ActionsPrefix(steps, i + 1);
      T.ActionsAppend(steps, i);
      T.LegalPrefix(sha, T.Actions(steps), T.Actions(steps[..i + 1]), w, {});
      forall y | y in before
        ensures !y.BranchStep?
      {
        ActionsAreOfSteps(steps[..i], y);
      }
      hide R.Legal, T.Actions;
      BeforeFirstBranch(sha, before, x, w);
    }
  }

  lemma StepKeepsBranches(sha: R.Sha, step: T.PlanStep, a: T.Answers, i: nat, e: T.Exec, key: R.BranchKey)
    requires i < |e.statuses| && T.WellFormed(e, i) && T.OneStep(sha, step, a, i, e).Continues?
    requires key in e.world.hub.branches || (CreatesBranch(step) && Created(step) == key)
    ensures key in T.OneStep(sha, step, a, i, e).next.world.hub.branches
  {
    hide T.Unwind;
  }

  lemma {:induction false} CreatedStays(sha: R.Sha, steps: seq<T.PlanStep>, answers: seq<T.Answers>, i: nat, e: T.Exec, m: nat, key: R.BranchKey)
    requires |steps| == |answers| == |e.statuses| && i <= |steps| && T.WellFormed(e, i)
    requires T.RunSteps(sha, steps, answers, i, e).1 == T.Completed
    requires key in e.world.hub.branches || (i <= m < |steps| && CreatesBranch(steps[m]) && Created(steps[m]) == key)
    ensures key in T.RunSteps(sha, steps, answers, i, e).0.world.hub.branches
    decreases |steps| - i
  {
    if i < |steps| {
      T.OneStepEnds(sha, steps[i], answers[i], i, e);
      if key in e.world.hub.branches || m == i {
        StepKeepsBranches(sha, steps[i], answers[i], i, e, key);
      }
      hide T.OneStep, Created;
      CreatedStays(sha, steps, answers, i + 1, T.OneStep(sha, steps[i], answers[i], i, e).next, m, key);
    }
  }

  // ---------- when the work of a completed attempt survives ----------

  /** The first keyed step, or the end of a plan without keys. */
  function FirstKeyed(steps: seq<T.PlanStep>): (j: nat)
    ensures j <= |steps| && (j < |steps| ==> T.Keyed(steps[j])) && forall m :: 0 <= m < j ==> !T.Keyed(steps[m])
  {
    if steps == [] || T.Keyed(steps[0]) then 0
    else
      var j := FirstKeyed(steps[1..]);
      assert forall m :: 0 < m < |steps| ==> steps[m] == steps[1..][m - 1];
      j + 1
  }

  /** No later attempts, whatever their gates answer, change branches or files. */
  ghost predicate Survives(sha: R.Sha, steps: seq<T.PlanStep>, b: Agent)
    requires |b.statuses| == |steps|
  {
    forall tries :: Fitting(steps, tries) ==> T.SameContent(Attempts(sha, steps, tries, b).world.hub, b.world.hub)
  }

  lemma {:induction false} CompletedCanStart(sha: R.Sha, steps: seq<T.PlanStep>, answers: seq<T.Answers>, a: Agent)
    requires |steps| == |answers| == |a.statuses| && Attempt(sha, steps, answers, a).1 == T.Completed
    ensures T.CanStart(Attempt(sha, steps, answers, a).0.goal)
  {
    var e := T.Exec(a.world, a.statuses, [], a.recorded);
    assert T.Done(sha, steps, e.world, 0, e) by {
      assert steps[..0] == [] && R.Run(sha, [], e.world) == (e.world, []);
    }
    hide T.RunSteps, T.Done;
    var k := T.EveryRun(sha, steps, answers, 0, e, a.world);
    AllVerifiedIsPartlyDone(T.RunSteps(sha, steps, answers, 0, e).0.statuses);
  }

  /** The first branch that a completed plan creates before any keyed step. */
  lemma {:induction false} FirstBranchIsLeft(sha: R.Sha, steps: seq<T.PlanStep>, first: seq<T.Answers>, a: Agent, i: nat)
    requires |steps| == |first| == |a.statuses| && R.Legal(sha, T.Actions(steps), a.world, {})
    requires i < FirstKeyed(steps) && CreatesBranch(steps[i]) && forall m :: 0 <= m < i ==> !CreatesBranch(steps[m])
    requires Attempt(sha, steps, first, a).1 == T.Completed
    ensures var b := Attempt(sha, steps, first, a).0; T.CanStart(b.goal) && Created(steps[i]) in b.world.hub.branches
    ensures !R.Protected(Created(steps[i]).branch) && forall m :: 0 <= m <= i ==> Repeatable(steps[m])
  {
    CreatedStays(sha, steps, first, 0, T.Exec(a.world, a.statuses, [], a.recorded), i, Created(steps[i]));
    CompletedCanStart(sha, steps, first, a);
    forall m | 0 <= m <= i
      ensures Repeatable(steps[m])
    {
      PlanBeforeFirstBranch(sha, steps, a.world, m);
    }
    PlanBeforeFirstBranch(sha, steps, a.world, i);
    hide FirstKeyed, T.RunSteps, R.Legal, T.FinalGoalStatus, T.CanStart;
  }

  /** A key on a step after the creation of a branch: the first attempt leaves the branch, and the
      next one, with every gate agreeing, is stopped at the used-up key and deletes it. */
  lemma {:induction false} LateKeyDeletesTheBranch(sha: R.Sha, steps: seq<T.PlanStep>, first: seq<T.Answers>, a: Agent, i: nat)
    requires |steps| == |first| == |a.statuses| && T.Distinct(a.recorded) && R.Legal(sha, T.Actions(steps), a.world, {})
    requires i < FirstKeyed(steps) < |steps| && CreatesBranch(steps[i]) && forall m :: 0 <= m < i ==> !CreatesBranch(steps[m])
    requires Attempt(sha, steps, first, a).1 == T.Completed
    ensures var b := Attempt(sha, steps, first, a).0;
      var (c, ending) := Attempt(sha, steps, Good(|steps|), b);
      && Created(steps[i]) in b.world.hub.branches
      && ending == T.Stopped && R.Vacant(c.world.hub, Created(steps[i]))
  {
    var b, j := Attempt(sha, steps, first, a).0, FirstKeyed(steps);
    var e := T.Exec(b.world, b.statuses, [], b.recorded);
    hide FirstKeyed, R.Vacant, R.Legal, T.FinalGoalStatus, T.RunSteps;
    FirstBranchIsLeft(sha, steps, first, a, i);
    AttemptKeys(sha, steps, first, a, j);
    T.UsedKeyBlocks(sha, steps, Good(|steps|), 0, e, j);
    FirstBranchIsDeleted(sha, steps, 0, e, i);
  }

  lemma FirstCreation(steps: seq<T.PlanStep>, j: nat) returns (i: nat)
    requires j <= |steps| && exists m :: 0 <= m < j && CreatesBranch(steps[m])
    ensures i < j && CreatesBranch(steps[i]) && forall m :: 0 <= m < i ==> !CreatesBranch(steps[m])
  {
    i := 0;
    while !CreatesBranch(steps[i])
      invariant i < j && forall m :: 0 <= m < i ==> !CreatesBranch(steps[m])
      decreases j - i
    {
      i := i + 1;
    }
  }

  /** Answers that agree everywhere, except that the output of step `i` is not accepted. */
  function Rejecting(n: nat, i: nat): (r: seq<T.Answers>)
    requires i < n
    ensures |r| == n && (forall m :: 0 <= m < n && m != i ==> r[m] == T.GOOD) && r[i] == T.GOOD.(outputAccepted := false)
  {
    Good(n)[i := T.GOOD.(outputAccepted := false)]
  }

  /** A creation whose output is not accepted is undone where it was made again. */
  lemma {:induction false} RejectedBranchIsDeleted(sha: R.Sha, steps: seq<T.PlanStep>, k: nat, e: T.Exec, i: nat)
    requires k <= i < |steps| == |e.statuses| && T.WellFormed(e, k) && OnlyPulls(e.stack)
    requires forall m :: k <= m <= i ==> Repeatable(steps[m])
    requires (forall m :: k <= m < i ==> !CreatesBranch(steps[m])) && CreatesBranch(steps[i]) && !R.Protected(Created(steps[i]).branch)
    ensures R.Vacant(T.RunSteps(sha, steps, Rejecting(|steps|, i), k, e).0.world.hub, Created(steps[i]))
    decreases i - k
  {
    if k < i {
      GoodStepWorks(sha, steps[k], k, e);
      RejectedBranchIsDeleted(sha, steps, k + 1, T.OneStep(sha, steps[k], T.GOOD, k, e).next, i);
    } else {
      RejectedCreation(sha, steps[i], i, e);
      hide T.OneStep, R.Vacant;
    }
  }

  lemma CreationIsHeld(sha: R.Sha, step: T.PlanStep, i: nat, e: T.Exec) returns (done: T.Exec)
    requires i < |e.statuses| && T.WellFormed(e, i) && OnlyPulls(e.stack) && CreatesBranch(step)
    ensures T.Perform(sha, step, T.GOOD, e.world).Some? && done == T.Executed(e, i, T.Perform(sha, step, T.GOOD, e.world).value)
    ensures |done.statuses| == |e.statuses| && T.WellFormed(done, i + 1) && HoldsBranch(done.stack, |e.stack|, Created(step))
  {
    done := T.Executed(e, i, T.Perform(sha, step, T.GOOD, e.world).value);
    assert done.stack[..|e.stack|] == e.stack;
  }

  lemma RejectionUnwinds(sha: R.Sha, step: T.PlanStep, i: nat, e: T.Exec)
    requires i < |e.statuses| && T.WellFormed(e, i) && !T.Keyed(step) && T.Perform(sha, step, T.GOOD, e.world).Some?
    ensures var done := T.Executed(e, i, T.Perform(sha, step, T.GOOD, e.world).value);
      && (forall f :: f in done.stack ==> f.step < |done.statuses|) && |done.statuses| == |e.statuses|
      && T.OneStep(sha, step, T.GOOD.(outputAccepted := false), i, e)
         == T.Ends(T.Unwind(sha, done.(statuses := done.statuses[i := Plans.StepFailed])), T.Stopped)
  {
    hide T.Unwind, R.Effect, R.Execute;
  }

  lemma {:induction false} RejectedCreation(sha: R.Sha, step: T.PlanStep, i: nat, e: T.Exec)
    requires i < |e.statuses| && T.WellFormed(e, i) && OnlyPulls(e.stack)
    requires Repeatable(step) && CreatesBranch(step) && !R.Protected(Created(step).branch)
    ensures var m := T.OneStep(sha, step, T.GOOD.(outputAccepted := false), i, e); m.Ends? && R.Vacant(m.end.world.hub, Created(step))
  {
    var done := CreationIsHeld(sha, step, i, e);
    hide T.Unwind, R.Vacant, T.Executed, HoldsBranch, OnlyPulls, T.Perform, R.Protected, Created, T.OneStep;
    RejectionUnwinds(sha, step, i, e);
    UnwindingDeletes(sha, done.(statuses := done.statuses[i := Plans.StepFailed]), |e.stack|, Created(step));
  }

  /** The other half: some answers make the next attempt delete the first branch of the plan. */
  lemma {:induction false} SomeAttemptDeletes(sha: R.Sha, steps: seq<T.PlanStep>, first: seq<T.Answers>, a: Agent, i: nat)
    requires |steps| == |first| == |a.statuses| && R.Legal(sha, T.Actions(steps), a.world, {})
    requires i < FirstKeyed(steps) && CreatesBranch(steps[i]) && forall m :: 0 <= m < i ==> !CreatesBranch(steps[m])
    requires Attempt(sha, steps, first, a).1 == T.Completed
    ensures !Survives(sha, steps, Attempt(sha, steps, first, a).0)
  {
    hide FirstKeyed, T.RunSteps, R.Legal, T.FinalGoalStatus, T.CanStart;
    var b, answers := Attempt(sha, steps, first, a).0, Rejecting(|steps|, i);
    FirstBranchIsLeft(sha, steps, first, a, i);
    RejectedBranchIsDeleted(sha, steps, 0, T.Exec(b.world, b.statuses, [], b.recorded), i);
    var tries := [answers];
    assert tries[..0] == [] && Fitting(steps, tries);
    assert Attempts(sha, steps, tries, b) == Attempt(sha, steps, answers, b).0;
  }

  /** A plan on branches of its own that has completed keeps its branches and files through all
      later attempts, whatever their gates answer, iff it creates no branch before its first keyed
      step; a plan without keys, iff it creates none at all. */
  lemma {:induction false} SurvivesIff(sha: R.Sha, steps: seq<T.PlanStep>, first: seq<T.Answers>, a: Agent)
    requires |steps| == |first| == |a.statuses| && T.Distinct(a.recorded) && R.Legal(sha, T.Actions(steps), a.world, {})
    requires Attempt(sha, steps, first, a).1 == T.Completed
    ensures Survives(sha, steps, Attempt(sha, steps, first, a).0) <==> forall m :: 0 <= m < FirstKeyed(steps) ==> !CreatesBranch(steps[m])
  {
    var b, j := Attempt(sha, steps, first, a).0, FirstKeyed(steps);
    if forall m :: 0 <= m < j ==> !CreatesBranch(steps[m]) {
      T.KeysAreUsedOnce(sha, steps, first, 0, T.Exec(a.world, a.statuses, [], a.recorded));
      if j < |steps| {
        AttemptKeys(sha, steps, first, a, j);
      }
      forall m | 0 <= m < j
        ensures Quiet(steps[m])
      {
        PlanBeforeFirstBranch(sha, steps, a.world, m);
      }
      hide T.ExecutePlan, R.Legal, FirstKeyed;
      forall tries | Fitting(steps, tries)
        ensures T.SameContent(Attempts(sha, steps, tries, b).world.hub, b.world.hub)
      {
        QuietAttempts(sha, steps, tries, b, j);
      }
    } else {
      var i := FirstCreation(steps, j);
      hide Survives;
      SomeAttemptDeletes(sha, steps, first, a, i);
    }
  }

  /** It happens wherever a branch is vacant: a branch is created, and a keyed step reads. */
  lemma {:induction false} LateKeyHappens(sha: R.Sha, create: R.Step, keyed: T.PlanStep, a: Agent)
    requires create.BranchStep? && !R.Protected(create.branch) && R.Vacant(a.world.hub, R.BranchKey(create.repo, create.branch))
    requires T.Keyed(keyed) && keyed.action.None? && keyed.key.value !in a.recorded
    requires |a.statuses| == 2 && T.Distinct(a.recorded) && T.CanStart(a.goal)
    ensures var steps := [T.PlanStep(Some(create), None), keyed];
      var (b, first) := Attempt(sha, steps, Good(2), a);
      var (c, second) := Attempt(sha, steps, Good(2), b);
      && first == T.Completed && R.BranchKey(create.repo, create.branch) in b.world.hub.branches
      && second == T.Stopped && R.Vacant(c.world.hub, R.BranchKey(create.repo, create.branch))
  {
    var steps := [T.PlanStep(Some(create), None), keyed];
    TwoStepsComplete(sha, steps, T.Exec(a.world, a.statuses, [], a.recorded));
    OneActionIsLegal(sha, steps[0], keyed, a.world);
    hide T.RunSteps, T.Actions, R.Legal, R.Vacant, T.FinalGoalStatus;
    assert FirstKeyed(steps) == 1;
    LateKeyDeletesTheBranch(sha, steps, Good(2), a, 0);
  }

  lemma TwoStepsComplete(sha: R.Sha, steps: seq<T.PlanStep>, e: T.Exec)
    requires |steps| == 2 == |e.statuses| && e.stack == [] && Repeatable(steps[0])
    requires steps[1].action.None? && T.Keyed(steps[1]) && steps[1].key.value !in e.recorded
    ensures T.RunSteps(sha, steps, Good(2), 0, e).1 == T.Completed
  {
    GoodStepWorks(sha, steps[0], 0, e);
    T.OneStepKeys(sha, steps[0], T.GOOD, 0, e);
    var next := T.OneStep(sha, steps[0], T.GOOD, 0, e).next;
    assert T.OneStep(sha, steps[1], T.GOOD, 1, next).Continues?;
    hide T.OneStep;
    assert T.RunSteps(sha, steps, Good(2), 1, next).1 == T.Completed;
  }

  lemma OneActionIsLegal(sha: R.Sha, step: T.PlanStep, read: T.PlanStep, w: R.World)
    requires CreatesBranch(step) && !R.Protected(Created(step).branch) && R.Vacant(w.hub, Created(step)) && read.action.None?
    ensures R.Legal(sha, T.Actions([step, read]), w, {})
  {
    assert [step, read][..1] == [step] && [step][..0] == [];
    assert T.Actions([step]) == [] + [step.action.value] == [step.action.value];
    assert [step.action.value][1..] == [];
  }
}
