/** A plan without keys that works on a branch of its own, tried again: creating the branch again
    resets what its base has, and the guards of the updates meet what the first attempt added. */
module RepeatedWork {
  import opened Tasks
  import Plans
  import R = GitHubRepository
  import T = Transactions
  import opened RunnerExecutions
  import opened LaterAttempts

  /** The first step creates the branch; the others read, work on it or open pull requests. */
  predicate WorkPlan(steps: seq<T.PlanStep>) {
    && steps != [] && CreatesBranch(steps[0])
    && (forall m :: 0 <= m < |steps| ==> !T.Keyed(steps[m]))
    && (forall m :: 0 < m < |steps| && steps[m].action.Some? ==> R.WorkOn(steps[m].action.value, {Created(steps[0])}))
  }

  predicate Writes(step: T.PlanStep, k: R.FileKey) {
    step.action.Some? && step.action.value.FileStep? && step.action.value.key == k
  }

  /** What the steps from `i` on write last to a file. */
  function LastWritten(steps: seq<T.PlanStep>, i: nat, k: R.FileKey): Option<string>
    requires i <= |steps|
    decreases |steps| - i
  {
    if i == |steps| then None
    else match LastWritten(steps, i + 1, k)
      case Some(c) => Some(c)
      case None => if Writes(steps[i], k) then Some(steps[i].action.value.content) else None
  }

  /** The plan adds the file: it writes one that the base branch does not have. */
  predicate Adds(steps: seq<T.PlanStep>, hub: R.Repository, k: R.FileKey)
    requires WorkPlan(steps)
  {
    R.FileKey(k.repo, steps[0].action.value.base, k.path) !in hub.files && LastWritten(steps, 1, k).Some?
  }

  ghost predicate AddedEndEmpty(steps: seq<T.PlanStep>, hub: R.Repository)
    requires WorkPlan(steps)
  {
    forall k :: Adds(steps, hub, k) ==> LastWritten(steps, 1, k) == Some("")
  }

  /** A good step without a key goes on iff its tool works. */
  lemma GoodStep(sha: R.Sha, step: T.PlanStep, i: nat, e: T.Exec)
    requires i < |e.statuses| && T.WellFormed(e, i) && !T.Keyed(step)
    ensures var m := T.OneStep(sha, step, T.GOOD, i, e);
      match step.action
      case None => m.Continues? && m.next.world == e.world
      case Some(x) =>
        match R.Effect(sha, x, e.world.hub)
        case None => m.Ends?
        case Some((hub, _)) => m.Continues? && m.next.world.hub == hub
  {
    hide T.Unwind, R.Effect;
  }

  lemma WorkWrites(sha: R.Sha, x: R.Step, hub: R.Repository, branch: R.BranchKey, k: R.FileKey)
    requires R.WorkOn(x, {branch}) && R.Effect(sha, x, hub).Some?
    ensures R.FileAt(R.Effect(sha, x, hub).value.0, k)
         == if x.FileStep? && x.key == k then Some(R.File(k.path, x.content, sha(x.content))) else R.FileAt(hub, k)
  {
  }

  /** A completed run leaves every file as it was last written, or else as it was. */
  lemma {:induction false} CompletedLeaves(sha: R.Sha, steps: seq<T.PlanStep>, i: nat, e: T.Exec, k: R.FileKey)
    requires WorkPlan(steps) && 0 < i <= |steps| == |e.statuses| && T.WellFormed(e, i)
    requires T.RunSteps(sha, steps, Good(|steps|), i, e).1 == T.Completed
    ensures R.FileAt(T.RunSteps(sha, steps, Good(|steps|), i, e).0.world.hub, k)
      == match LastWritten(steps, i, k) case Some(c) => Some(R.File(k.path, c, sha(c))) case None => R.FileAt(e.world.hub, k)
    decreases |steps| - i
  {
    if i < |steps| {
      T.OneStepEnds(sha, steps[i], T.GOOD, i, e);
      GoodStep(sha, steps[i], i, e);
      if steps[i].action.Some? && R.Effect(sha, steps[i].action.value, e.world.hub).Some? {
        WorkWrites(sha, steps[i].action.value, e.world.hub, Created(steps[0]), k);
      }
      hide T.OneStep, R.Effect, R.FileAt;
      CompletedLeaves(sha, steps, i + 1, T.OneStep(sha, steps[i], T.GOOD, i, e).next, k);
    }
  }

  /** The files of the branch in a second run: as in the first one, or, where the first had none
      so far, as the first run left them. */
  ghost predicate Follows(hub1: R.Repository, hub2: R.Repository, end: R.Repository, branch: R.BranchKey) {
    forall k :: R.BranchOf(k) == branch ==>
      R.FileAt(hub2, k) == R.FileAt(hub1, k) || (R.FileAt(hub1, k).None? && R.FileAt(hub2, k) == R.FileAt(end, k))
  }

  /** A file that the first run has not added so far, and the second finds. */
  predicate Early(hub1: R.Repository, hub2: R.Repository, k: R.FileKey) {
    R.FileAt(hub1, k).None? && R.FileAt(hub2, k).Some?
  }

  predicate Meets(x: R.Step, hub1: R.Repository, hub2: R.Repository) {
    x.FileStep? && Early(hub1, hub2, x.key) && R.FileAt(hub2, x.key).value.content != ""
  }

  /** One step in both runs: it fails in the second iff it meets a file with content. */
  lemma StepFollows(sha: R.Sha, x: R.Step, hub1: R.Repository, hub2: R.Repository, end: R.Repository, branch: R.BranchKey)
    requires R.WorkOn(x, {branch}) && Follows(hub1, hub2, end, branch) && R.Effect(sha, x, hub1).Some?
    ensures R.Effect(sha, x, hub2).None? <==> Meets(x, hub1, hub2)
    ensures R.Effect(sha, x, hub2).Some? ==> Follows(R.Effect(sha, x, hub1).value.0, R.Effect(sha, x, hub2).value.0, end, branch)
    ensures R.Effect(sha, x, hub2).Some? ==>
      (forall k :: R.BranchOf(k) == branch ==>
        (Early(R.Effect(sha, x, hub1).value.0, R.Effect(sha, x, hub2).value.0, k) <==>
          (Early(hub1, hub2, k) && !(x.FileStep? && x.key == k))))
  {
    if x.FileStep? {
      assert R.FileAt(hub2, x.key) == R.FileAt(hub1, x.key) || R.FileAt(hub1, x.key).None?;
    }
    if R.Effect(sha, x, hub2).Some? {
      forall k
        ensures R.FileAt(R.Effect(sha, x, hub1).value.0, k)
             == if x.FileStep? && x.key == k then Some(R.File(k.path, x.content, sha(x.content))) else R.FileAt(hub1, k)
        ensures R.FileAt(R.Effect(sha, x, hub2).value.0, k)
             == if x.FileStep? && x.key == k then Some(R.File(k.path, x.content, sha(x.content))) else R.FileAt(hub2, k)
      {
        WorkWrites(sha, x, hub1, branch, k);
        WorkWrites(sha, x, hub2, branch, k);
      }
    }
  }

  ghost predicate NoContentAhead(hub1: R.Repository, hub2: R.Repository, branch: R.BranchKey) {
    forall k :: R.BranchOf(k) == branch && Early(hub1, hub2, k) ==> R.FileAt(hub2, k).value.content == ""
  }

  ghost predicate SameFiles(hub1: R.Repository, hub2: R.Repository, branch: R.BranchKey) {
    forall k :: R.BranchOf(k) == branch ==> R.FileAt(hub1, k) == R.FileAt(hub2, k)
  }

  lemma AheadShrinks(sha: R.Sha, x: R.Step, hub1: R.Repository, hub2: R.Repository, end: R.Repository, branch: R.BranchKey)
    requires R.WorkOn(x, {branch}) && Follows(hub1, hub2, end, branch)
    requires R.Effect(sha, x, hub1).Some? && R.Effect(sha, x, hub2).Some?
    ensures NoContentAhead(R.Effect(sha, x, hub1).value.0, R.Effect(sha, x, hub2).value.0, branch) <==> NoContentAhead(hub1, hub2, branch)
  {
    StepFollows(sha, x, hub1, hub2, end, branch);
    forall k
      ensures R.FileAt(R.Effect(sha, x, hub2).value.0, k)
           == if x.FileStep? && x.key == k then Some(R.File(k.path, x.content, sha(x.content))) else R.FileAt(hub2, k)
    {
      WorkWrites(sha, x, hub2, branch, k);
    }
    hide R.Effect, R.FileAt, Follows;
  }

  /** The second run beside the first one, which completes. */
  lemma {:induction false} SecondRun(sha: R.Sha, steps: seq<T.PlanStep>, i: nat, e1: T.Exec, e2: T.Exec)
    requires WorkPlan(steps) && 0 < i <= |steps| == |e1.statuses| == |e2.statuses| && T.WellFormed(e1, i) && T.WellFormed(e2, i)
    requires T.RunSteps(sha, steps, Good(|steps|), i, e1).1 == T.Completed
    requires Follows(e1.world.hub, e2.world.hub, T.RunSteps(sha, steps, Good(|steps|), i, e1).0.world.hub, Created(steps[0]))
    ensures var (end2, ending) := T.RunSteps(sha, steps, Good(|steps|), i, e2);
      && (ending == T.Completed <==> NoContentAhead(e1.world.hub, e2.world.hub, Created(steps[0])))
      && (ending == T.Completed ==>
            SameFiles(end2.world.hub, T.RunSteps(sha, steps, Good(|steps|), i, e1).0.world.hub, Created(steps[0])))
    decreases |steps| - i
  {
    if i < |steps| {
      var branch, end := Created(steps[0]), T.RunSteps(sha, steps, Good(|steps|), i, e1).0.world.hub;
      T.OneStepEnds(sha, steps[i], T.GOOD, i, e1);
      T.OneStepEnds(sha, steps[i], T.GOOD, i, e2);
      GoodStep(sha, steps[i], i, e1);
      GoodStep(sha, steps[i], i, e2);
      hide T.OneStep, Follows, NoContentAhead, Created;
      if steps[i].action.Some? {
        var x := steps[i].action.value;
        StepFollows(sha, x, e1.world.hub, e2.world.hub, end, branch);
        if R.Effect(sha, x, e2.world.hub).Some? {
          AheadShrinks(sha, x, e1.world.hub, e2.world.hub, end, branch);
        } else {
          MeetingIsAhead(x, e1.world.hub, e2.world.hub, branch);
        }
      }
      hide R.Effect, R.WorkOn, Meets, SameFiles;
      if T.OneStep(sha, steps[i], T.GOOD, i, e2).Continues? {
        SecondRun(sha, steps, i + 1, T.OneStep(sha, steps[i], T.GOOD, i, e1).next, T.OneStep(sha, steps[i], T.GOOD, i, e2).next);
      }
    }
  }

  lemma MeetingIsAhead(x: R.Step, hub1: R.Repository, hub2: R.Repository, branch: R.BranchKey)
    requires R.WorkOn(x, {branch}) && Meets(x, hub1, hub2)
    ensures !NoContentAhead(hub1, hub2, branch)
  {
  }

  // ---------- all attempts of such a plan ----------

  /** The branch and its base hold the files that the completed attempt left. */
  ghost predicate AsLeft(hub: R.Repository, left: R.Repository, create: R.Step)
    requires create.BranchStep?
  {
    SameFiles(hub, left, R.BranchKey(create.repo, create.branch)) && SameFiles(hub, left, R.BranchKey(create.repo, create.base))
  }

  function Branched(hub: R.Repository, create: R.Step): R.Repository
    requires create.BranchStep?
  {
    R.CreateBranch(hub, create.repo, create.branch, create.base)
  }

  /** Creating the branch again resets the files that its base has, and only these. */
  lemma BranchedAgain(start: R.Repository, left: R.Repository, hub: R.Repository, create: R.Step, k: R.FileKey)
    requires create.BranchStep? && R.Vacant(start, R.BranchKey(create.repo, create.branch)) && AsLeft(hub, left, create)
    requires create.base == create.branch || SameFiles(left, start, R.BranchKey(create.repo, create.base))
    requires R.BranchOf(k) == R.BranchKey(create.repo, create.branch)
    ensures var base := R.FileKey(create.repo, create.base, k.path);
      && R.FileAt(Branched(start, create), k) == R.FileAt(start, base)
      && R.FileAt(Branched(hub, create), k) == if base in start.files then R.FileAt(start, base) else R.FileAt(left, k)
  {
    var base := R.FileKey(create.repo, create.base, k.path);
    assert R.BranchOf(base) == R.BranchKey(create.repo, create.base);
    assert R.FileAt(hub, k) == R.FileAt(left, k) && R.FileAt(hub, base) == R.FileAt(left, base);
    assert k !in start.files;
    if create.base == create.branch {
      assert k == base;
    } else {
      assert R.FileAt(left, base) == R.FileAt(start, base);
    }
  }

  function CreateOf(steps: seq<T.PlanStep>): (create: R.Step)
    requires WorkPlan(steps)
    ensures create.BranchStep?
  {
    steps[0].action.value
  }

  lemma CreationGoesOn(sha: R.Sha, steps: seq<T.PlanStep>, e: T.Exec) returns (next: T.Exec)
    requires WorkPlan(steps) && |e.statuses| == |steps| && e.stack == []
    ensures |next.statuses| == |steps| && T.WellFormed(next, 1) && HoldsBranch(next.stack, 0, Created(steps[0]))
    ensures next.world.hub == Branched(e.world.hub, CreateOf(steps))
    ensures T.RunSteps(sha, steps, Good(|steps|), 0, e) == T.RunSteps(sha, steps, Good(|steps|), 1, next)
  {
    GoodStepWorks(sha, steps[0], 0, e);
    next := T.OneStep(sha, steps[0], T.GOOD, 0, e).next;
    hide T.Unwind;
    assert next.stack == [T.Frame(R.BranchToken(CreateOf(steps).repo, CreateOf(steps).branch, R.AuthId(CreateOf(steps).auth)), 0)];
  }

  /** What is written is on the branch of the plan. */
  lemma {:induction false} WrittenIsOnBranch(steps: seq<T.PlanStep>, i: nat, k: R.FileKey)
    requires WorkPlan(steps) && 0 < i <= |steps| && LastWritten(steps, i, k).Some?
    ensures R.BranchOf(k) == Created(steps[0])
    decreases |steps| - i
  {
    if LastWritten(steps, i + 1, k).Some? {
      WrittenIsOnBranch(steps, i + 1, k);
    }
  }

  /** A completed attempt changes no file of another branch. */
  lemma {:induction false} OtherBranchStays(sha: R.Sha, steps: seq<T.PlanStep>, e: T.Exec, other: R.BranchKey)
    requires WorkPlan(steps) && |e.statuses| == |steps| && e.stack == [] && other != Created(steps[0])
    requires T.RunSteps(sha, steps, Good(|steps|), 0, e).1 == T.Completed
    ensures SameFiles(T.RunSteps(sha, steps, Good(|steps|), 0, e).0.world.hub, e.world.hub, other)
  {
    var next := CreationGoesOn(sha, steps, e);
    hide T.RunSteps;
    forall k | R.BranchOf(k) == other
      ensures R.FileAt(T.RunSteps(sha, steps, Good(|steps|), 0, e).0.world.hub, k) == R.FileAt(e.world.hub, k)
    {
      if LastWritten(steps, 1, k).Some? {
        WrittenIsOnBranch(steps, 1, k);
      }
      CompletedLeaves(sha, steps, 1, next, k);
      assert R.FileAt(next.world.hub, k) == R.FileAt(e.world.hub, k);
    }
  }

  ghost predicate StartFollows(steps: seq<T.PlanStep>, start: R.Repository, left: R.Repository, hub1: R.Repository, hub2: R.Repository)
    requires WorkPlan(steps)
  {
    && Follows(hub1, hub2, left, Created(steps[0]))
    && (NoContentAhead(hub1, hub2, Created(steps[0])) <==> AddedEndEmpty(steps, start))
  }

  /** When the branch is created again, the files ahead are those that the plan added. */
  lemma {:induction false} AheadIsAdded(sha: R.Sha, steps: seq<T.PlanStep>, start: R.Repository, e1: T.Exec, hub: R.Repository)
    requires WorkPlan(steps) && R.Vacant(start, Created(steps[0])) && |e1.statuses| == |steps| && T.WellFormed(e1, 1)
    requires e1.world.hub == Branched(start, CreateOf(steps)) && T.RunSteps(sha, steps, Good(|steps|), 1, e1).1 == T.Completed
    requires var left := T.RunSteps(sha, steps, Good(|steps|), 1, e1).0.world.hub; var create := CreateOf(steps);
      && AsLeft(hub, left, create)
      && (create.base == create.branch || SameFiles(left, start, R.BranchKey(create.repo, create.base)))
    ensures StartFollows(steps, start, T.RunSteps(sha, steps, Good(|steps|), 1, e1).0.world.hub, e1.world.hub, Branched(hub, CreateOf(steps)))
  {
    var left, create := T.RunSteps(sha, steps, Good(|steps|), 1, e1).0.world.hub, CreateOf(steps);
    var hub2 := Branched(hub, create);
    forall k | R.BranchOf(k) == Created(steps[0])
      ensures R.FileAt(hub2, k) == R.FileAt(e1.world.hub, k) || (R.FileAt(e1.world.hub, k).None? && R.FileAt(hub2, k) == R.FileAt(left, k))
      ensures Early(e1.world.hub, hub2, k) <==> Adds(steps, start, k)
      ensures Adds(steps, start, k) ==> R.FileAt(hub2, k).value.content == LastWritten(steps, 1, k).value
    {
      BranchedAgain(start, left, hub, create, k);
      CompletedLeaves(sha, steps, 1, e1, k);
      hide T.RunSteps, Branched, LastWritten;
    }
    forall k | Adds(steps, start, k)
      ensures R.BranchOf(k) == Created(steps[0])
    {
      WrittenIsOnBranch(steps, 1, k);
    }
    hide T.RunSteps, Branched, LastWritten, R.FileAt, Early, Adds;
  }

  lemma CompletedStarts(sha: R.Sha, steps: seq<T.PlanStep>, g: Agent)
    requires |g.statuses| == |steps|
    ensures var (next, ending) := Attempt(sha, steps, Good(|steps|), g); ending == T.Completed ==> T.CanStart(next.goal)
  {
    if Attempt(sha, steps, Good(|steps|), g).1 == T.Completed {
      CompletedCanStart(sha, steps, Good(|steps|), g);
    }
    hide Attempt;
  }

  /** An attempt made where a completed one has left its files: it completes too iff every file
      that the plan adds ends empty; otherwise it is stopped and the branch is gone. */
  lemma {:induction false} LaterAttempt(sha: R.Sha, steps: seq<T.PlanStep>, a: Agent, g: Agent)
    requires WorkPlan(steps) && |a.statuses| == |steps| == |g.statuses| && T.CanStart(g.goal)
    requires R.Vacant(a.world.hub, Created(steps[0])) && !R.Protected(Created(steps[0]).branch)
    requires Attempt(sha, steps, Good(|steps|), a).1 == T.Completed
    requires AsLeft(g.world.hub, Attempt(sha, steps, Good(|steps|), a).0.world.hub, CreateOf(steps))
    ensures var (c, ending) := Attempt(sha, steps, Good(|steps|), g);
      && (ending == T.Completed <==> AddedEndEmpty(steps, a.world.hub))
      && (ending == T.Completed ==>
            T.CanStart(c.goal) && AsLeft(c.world.hub, Attempt(sha, steps, Good(|steps|), a).0.world.hub, CreateOf(steps)))
      && (ending != T.Completed ==> ending == T.Stopped && R.Vacant(c.world.hub, Created(steps[0])))
  {
    CompletedStarts(sha, steps, g);
    var start, create := T.Exec(a.world, a.statuses, [], a.recorded), CreateOf(steps);
    var again := T.Exec(g.world, g.statuses, [], g.recorded);
    var base := R.BranchKey(create.repo, create.base);
    var e1 := CreationGoesOn(sha, steps, start);
    var e2 := CreationGoesOn(sha, steps, again);
    hide T.RunSteps, R.Vacant, T.FinalGoalStatus, T.CanStart, StartFollows;
    if create.base != create.branch {
      OtherBranchStays(sha, steps, start, base);
    }
    AheadIsAdded(sha, steps, a.world.hub, e1, g.world.hub);
    assert StartFollows(steps, a.world.hub, T.RunSteps(sha, steps, Good(|steps|), 1, e1).0.world.hub, e1.world.hub, e2.world.hub);
    AgainFollows(sha, steps, a.world.hub, e1, e2);
    GoodRunDeletes(sha, steps, 1, e2, 0, Created(steps[0]));
    if T.RunSteps(sha, steps, Good(|steps|), 0, again).1 == T.Completed && create.base != create.branch {
      OtherBranchStays(sha, steps, again, base);
    }
    hide WorkPlan, HoldsBranch, AddedEndEmpty, Branched;
  }

  lemma AgainFollows(sha: R.Sha, steps: seq<T.PlanStep>, start: R.Repository, e1: T.Exec, e2: T.Exec)
    requires WorkPlan(steps) && |steps| == |e1.statuses| == |e2.statuses| && T.WellFormed(e1, 1) && T.WellFormed(e2, 1)
    requires T.RunSteps(sha, steps, Good(|steps|), 1, e1).1 == T.Completed
    requires StartFollows(steps, start, T.RunSteps(sha, steps, Good(|steps|), 1, e1).0.world.hub, e1.world.hub, e2.world.hub)
    ensures var (end2, ending) := T.RunSteps(sha, steps, Good(|steps|), 1, e2);
      && (ending == T.Completed <==> AddedEndEmpty(steps, start))
      && (ending == T.Completed ==>
            SameFiles(end2.world.hub, T.RunSteps(sha, steps, Good(|steps|), 1, e1).0.world.hub, Created(steps[0])))
  {
    hide T.RunSteps, Follows, NoContentAhead, AddedEndEmpty, SameFiles;
    SecondRun(sha, steps, 1, e1, e2);
  }

  /** The second attempt at a plan without keys on a branch of its own, every gate agreeing both
      times. The branch is there before it; when it is stopped, the branch is gone. */
  lemma {:induction false} SecondAttemptCompletesIff(sha: R.Sha, steps: seq<T.PlanStep>, a: Agent)
    requires WorkPlan(steps) && |a.statuses| == |steps|
    requires R.Vacant(a.world.hub, Created(steps[0])) && !R.Protected(Created(steps[0]).branch)
    requires Attempt(sha, steps, Good(|steps|), a).1 == T.Completed
    ensures var b := Attempt(sha, steps, Good(|steps|), a).0;
      var (c, ending) := Attempt(sha, steps, Good(|steps|), b);
      && Created(steps[0]) in b.world.hub.branches
      && (ending == T.Completed <==> AddedEndEmpty(steps, a.world.hub))
      && (ending != T.Completed ==> ending == T.Stopped && R.Vacant(c.world.hub, Created(steps[0])))
  {
    var b := Attempt(sha, steps, Good(|steps|), a).0;
    CompletedCanStart(sha, steps, Good(|steps|), a);
    CreatedStays(sha, steps, Good(|steps|), 0, T.Exec(a.world, a.statuses, [], a.recorded), 0, Created(steps[0]));
    hide T.RunSteps, R.Vacant, T.FinalGoalStatus, T.CanStart, AddedEndEmpty;
    LaterAttempt(sha, steps, a, b);
  }

  lemma {:induction false} CompletionsAtMost(sha: R.Sha, steps: seq<T.PlanStep>, tries: seq<seq<T.Answers>>, a: Agent)
    requires Fitting(steps, tries) && |a.statuses| == |steps|
    ensures Completions(sha, steps, tries, a) <= |tries|
  {
    if tries != [] {
      CompletionsAtMost(sha, steps, tries[..|tries| - 1], a);
    }
  }

  lemma {:induction false} OneTryMore(sha: R.Sha, steps: seq<T.PlanStep>, a: Agent, n: nat)
    requires |a.statuses| == |steps|
    ensures var tries, more := GoodTries(|steps|, n), GoodTries(|steps|, n + 1);
      var g := Attempts(sha, steps, tries, a);
      var (next, ending) := Attempt(sha, steps, Good(|steps|), g);
      && Attempts(sha, steps, more, a) == next
      && Completions(sha, steps, more, a) == Completions(sha, steps, tries, a) + if ending == T.Completed then 1 else 0
  {
    assert GoodTries(|steps|, n + 1)[..n] == GoodTries(|steps|, n);
    hide Attempt;
  }

  /** Of two or more attempts, every gate agreeing, all complete iff every file that the plan adds
      ends empty; they then leave the files of the branch as the first attempt did. */
  lemma {:induction false} AllAttemptsCompleteIff(sha: R.Sha, steps: seq<T.PlanStep>, a: Agent, n: nat)
    requires WorkPlan(steps) && |a.statuses| == |steps| && n >= 2
    requires R.Vacant(a.world.hub, Created(steps[0])) && !R.Protected(Created(steps[0]).branch)
    requires Attempt(sha, steps, Good(|steps|), a).1 == T.Completed
    ensures Completions(sha, steps, GoodTries(|steps|, n), a) == n <==> AddedEndEmpty(steps, a.world.hub)
    ensures AddedEndEmpty(steps, a.world.hub) ==>
      (var end := Attempts(sha, steps, GoodTries(|steps|, n), a);
       T.CanStart(end.goal) && AsLeft(end.world.hub, Attempt(sha, steps, Good(|steps|), a).0.world.hub, CreateOf(steps)))
  {
    CompletionsAtMost(sha, steps, GoodTries(|steps|, n - 1), a);
    hide Attempt, Attempts, Completions, AddedEndEmpty, R.Vacant, T.CanStart, AsLeft;
    if n == 2 {
      FirstTry(sha, steps, a);
    } else {
      AllAttemptsCompleteIff(sha, steps, a, n - 1);
    }
    OneTryMore(sha, steps, a, n - 1);
    if n == 2 || AddedEndEmpty(steps, a.world.hub) {
      LaterAttempt(sha, steps, a, Attempts(sha, steps, GoodTries(|steps|, n - 1), a));
    }
  }

  lemma {:induction false} FirstTry(sha: R.Sha, steps: seq<T.PlanStep>, a: Agent)
    requires WorkPlan(steps) && |a.statuses| == |steps| && Attempt(sha, steps, Good(|steps|), a).1 == T.Completed
    ensures var tries, b := GoodTries(|steps|, 1), Attempt(sha, steps, Good(|steps|), a).0;
      && Attempts(sha, steps, tries, a) == b && Completions(sha, steps, tries, a) == 1
      && T.CanStart(b.goal) && AsLeft(b.world.hub, b.world.hub, CreateOf(steps))
  {
    OneTryMore(sha, steps, a, 0);
    CompletedCanStart(sha, steps, Good(|steps|), a);
    hide Attempt;
  }

  /** The ordinary work plan is of that kind: it creates a branch and adds a file to it. The second
      attempt meets the file, is stopped, and deletes the branch. */
  lemma {:induction false} AddedFileIsLost(sha: R.Sha, create: R.Step, add: R.Step, a: Agent)
    requires create.BranchStep? && !R.Protected(create.branch) && R.Vacant(a.world.hub, R.BranchKey(create.repo, create.branch))
    requires add.FileStep? && R.BranchOf(add.key) == R.BranchKey(create.repo, create.branch)
    requires R.FileKey(create.repo, create.base, add.key.path) !in a.world.hub.files
    requires add.content != "" && add.expectedSha.None? && add.expectedPrevious == Some("")
    requires |a.statuses| == 2 && T.CanStart(a.goal)
    ensures var steps := [T.PlanStep(Some(create), None), T.PlanStep(Some(add), None)];
      var (b, first) := Attempt(sha, steps, Good(2), a);
      var (c, second) := Attempt(sha, steps, Good(2), b);
      && first == T.Completed && R.BranchKey(create.repo, create.branch) in b.world.hub.branches
      && second == T.Stopped && R.Vacant(c.world.hub, R.BranchKey(create.repo, create.branch))
  {
    var steps := [T.PlanStep(Some(create), None), T.PlanStep(Some(add), None)];
    var e := CreationGoesOn(sha, steps, T.Exec(a.world, a.statuses, [], a.recorded));
    assert R.FileAt(e.world.hub, add.key).None?;
    GoodStep(sha, steps[1], 1, e);
    assert T.RunSteps(sha, steps, Good(2), 1, e).1 == T.Completed by {
      assert R.Effect(sha, add, e.world.hub).Some?;
      hide T.OneStep, R.Effect;
      assert T.OneStep(sha, steps[1], T.GOOD, 1, e).Continues?;
    }
    assert LastWritten(steps, 2, add.key) == None && LastWritten(steps, 1, add.key) == Some(add.content);
    assert Adds(steps, a.world.hub, add.key);
    assert !AddedEndEmpty(steps, a.world.hub);
    hide T.RunSteps, R.Vacant, T.FinalGoalStatus, AddedEndEmpty;
    SecondAttemptCompletesIff(sha, steps, a);
  }
}
