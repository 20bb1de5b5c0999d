/** The executor as it runs: one loop over the steps, one over the rollback stack. */
module TransactionManagers {
  import opened Tasks
  import P = PolicyDecisions
  import R = GitHubRepository
  import T = Transactions
  import Plans
  import opened GitHubTools

  class TransactionManager {
    const toolbox: GitHubToolbox
    /** The idempotency keys noted in the world state. */
    var recorded: seq<string>

    constructor (toolbox: GitHubToolbox)
      ensures this.toolbox == toolbox && recorded == []
    {
      this.toolbox := toolbox;
      recorded := [];
    }

    method Perform(step: T.PlanStep, a: T.Answers) returns (ok: bool, tokens: seq<R.Token>)
      modifies toolbox, toolbox.client
      ensures T.Perform(toolbox.client.sha, step, a, old(toolbox.World())) == if ok then Some((toolbox.World(), tokens)) else None
      ensures !ok ==> toolbox.World() == old(toolbox.World())
    {
      tokens := [];
      match step.action
      case None => ok := a.readOk;
      case Some(BranchStep(repo, branch, base, auth)) =>
        var token := toolbox.CreateBranch(repo, branch, base, auth);
        ok, tokens := true, [token];
      case Some(FileStep(key, content, expectedSha, expectedPrevious, auth)) =>
        var token := toolbox.UpdateFile(key, content, expectedSha, expectedPrevious, auth);
        ok := token.Some?;
        if ok {
          tokens := [token.value];
        }
      case Some(PrStep(repo, pr, auth)) =>
        var token := toolbox.OpenPr(repo, pr, auth);
        ok, tokens := true, [token];
    }

    /** Pops the stack until it is empty; a rollback that fails is noted, and the rest go on. */
    method Rollback(stack: seq<T.Frame>, was: seq<Plans.StepStatus>) returns (statuses: seq<Plans.StepStatus>)
      requires forall f :: f in stack ==> f.step < |was|
      modifies toolbox, toolbox.client
      ensures var end := T.Unwind(toolbox.client.sha, T.Exec(old(toolbox.World()), was, stack, recorded));
        toolbox.World() == end.world && statuses == end.statuses
    {
      var rest := stack;
      statuses := was;
      while rest != []
        invariant |statuses| == |was| && rest <= stack
        invariant T.Unwind(toolbox.client.sha, T.Exec(old(toolbox.World()), was, stack, recorded))
               == T.Unwind(toolbox.client.sha, T.Exec(toolbox.World(), statuses, rest, recorded))
      {
        var top := rest[|rest| - 1];
        rest := rest[..|rest| - 1];
        var ok := toolbox.RollBack(top.token);
        statuses := statuses[top.step := if ok then Plans.RolledBack else Plans.StepFailed];
      }
    }

    method ExecutePlan(steps: seq<T.PlanStep>, answers: seq<T.Answers>, was: seq<Plans.StepStatus>)
      returns (statuses: seq<Plans.StepStatus>, ending: T.Ending)
      requires |steps| == |answers| == |was|
      modifies this`recorded, toolbox, toolbox.client
      ensures var (end, how) := T.ExecutePlan(toolbox.client.sha, steps, answers, was, old(toolbox.World()), old(recorded));
        toolbox.World() == end.world && statuses == end.statuses && recorded == end.recorded && ending == how
    {
      hide T.Admit, T.Perform, T.Unwind, T.Accepted;
      var stack: seq<T.Frame> := [];
      statuses := was;
      ghost var sha := toolbox.client.sha;
      ghost var start := T.Exec(toolbox.World(), was, [], recorded);
      for i := 0 to |steps|
        invariant |statuses| == |was| && T.WellFormed(T.Exec(toolbox.World(), statuses, stack, recorded), i)
        invariant T.RunSteps(sha, steps, answers, 0, start)
               == T.RunSteps(sha, steps, answers, i, T.Exec(toolbox.World(), statuses, stack, recorded))
      {
        var step, a := steps[i], answers[i];
        var verdict := T.Admit(step, a, recorded);
        if verdict.Escapes? {
          return statuses, T.Escaped;
        }
        if verdict.Stops? {
          statuses := Rollback(stack, statuses[i := verdict.status]);
          return statuses, T.Stopped;
        }
        var ok, tokens := Perform(step, a);
        if !ok {
          statuses := Rollback(stack, statuses[i := Plans.StepFailed]);
          return statuses, T.Stopped;
        }
        statuses := statuses[i := Plans.Executed];
        if tokens != [] {
          stack := stack + [T.Frame(tokens[0], i)];
        }
        if a.raises == Some(T.AfterExecution) {
          return statuses, T.Escaped;
        }
        if !T.Accepted(a) {
          statuses := Rollback(stack, statuses[i := Plans.StepFailed]);
          return statuses, T.Stopped;
        }
        if T.Keyed(step) {
          recorded := recorded + [step.key.value];
        }
        statuses := statuses[i := Plans.Verified];
      }
      ending := T.Completed;
    }
  }
}
