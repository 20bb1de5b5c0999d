/** What the outcome of a plan says about each of its steps: which checks all passed when it
    completes, and which check left which status when it does not. */
module PlanOutcomes {
  import opened Tasks
  import P = PolicyDecisions
  import R = GitHubRepository
  import Plans
  import opened Transactions

  // ---------- the state before a step ----------

  /** The key of a step is used up: by a plan before this one, or by an earlier step. */
  ghost predicate KeyIsUsed(steps: seq<PlanStep>, recorded: seq<string>, i: nat)
    requires i < |steps|
  {
    steps[i].key.Some? && steps[i].key.value != ""
    && (steps[i].key.value in recorded || exists j :: 0 <= j < i && steps[j].key == steps[i].key)
  }

  /** The tool of a step works in the repository that the steps before it leave. */
  ghost predicate ToolWorks(sha: R.Sha, steps: seq<PlanStep>, a: Answers, w: R.World, i: nat)
    requires i < |steps|
  {
    match steps[i].action
    case None => a.readOk
    case Some(x) => R.Effect(sha, x, R.Run(sha, Actions(steps[..i]), w).0.hub).Some?
  }

  /** Only steps with an action have left something to roll back. */
  ghost predicate OfActions(steps: seq<PlanStep>, i: nat, stack: seq<Frame>)
    requires i <= |steps|
  {
    forall f :: f in stack ==> f.step < i && steps[f.step].action.Some?
  }

  lemma PushedIsOfAction(sha: R.Sha, steps: seq<PlanStep>, a: Answers, i: nat, e: Exec)
    requires i < |steps| && i < |e.statuses| && OfActions(steps, i, e.stack) && Perform(sha, steps[i], a, e.world).Some?
    ensures OfActions(steps, i + 1, Executed(e, i, Perform(sha, steps[i], a, e.world).value).stack)
  {
    var tokens := Perform(sha, steps[i], a, e.world).value.1;
    var pushed := Push(e.stack, tokens, i);
    assert steps[i].action.None? ==> tokens == [];
    hide Perform, R.Effect, R.Execute;
    forall f | f in pushed
      ensures f.step < i + 1 && steps[f.step].action.Some?
    {
      assert f in e.stack || (tokens != [] && f == Frame(tokens[0], i));
    }
    assert Executed(e, i, Perform(sha, steps[i], a, e.world).value).stack == pushed;
    assert OfActions(steps, i + 1, pushed);
  }

  /** The first `i` steps have been done, verified, and their keys recorded. */
  ghost predicate At(sha: R.Sha, steps: seq<PlanStep>, w: R.World, recorded: seq<string>, i: nat, e: Exec)
    requires i <= |steps|
  {
    && WellFormed(e, i) && Done(sha, steps, w, i, e) && OfActions(steps, i, e.stack)
    && (forall k :: k in e.recorded <==> k in recorded || (k != "" && exists j :: 0 <= j < i && steps[j].key == Some(k)))
  }

  ghost predicate AllWell(sha: R.Sha, steps: seq<PlanStep>, answers: seq<Answers>, w: R.World, recorded: seq<string>, i: nat)
    requires i < |steps| == |answers|
  {
    var a := answers[i];
    && a.raises.None? && !a.refused && !KeyIsUsed(steps, recorded, i) && a.preconditionsHold
    && (a.decision == Some(P.Approved) || (a.decision == Some(P.NeedsHuman) && a.humanApproves))
    && a.dryRunOk && ToolWorks(sha, steps, a, w, i)
    && a.outputAccepted && a.predictionsHold && a.postconditionsHold
  }

  lemma WorldAt(sha: R.Sha, steps: seq<PlanStep>, a: Answers, w: R.World, recorded: seq<string>, i: nat, e: Exec)
    requires i < |steps| && At(sha, steps, w, recorded, i, e)
    ensures Perform(sha, steps[i], a, e.world).Some? <==> ToolWorks(sha, steps, a, w, i)
    ensures Keyed(steps[i]) && steps[i].key.value in e.recorded <==> KeyIsUsed(steps, recorded, i)
  {
    hide R.Effect, R.Run, Actions;
  }

  lemma RecordsOneMore(steps: seq<PlanStep>, recorded: seq<string>, i: nat, before: seq<string>, after: seq<string>)
    requires i < |steps| && after == if Keyed(steps[i]) then before + [steps[i].key.value] else before
    requires forall k :: k in before <==> k in recorded || (k != "" && exists j :: 0 <= j < i && steps[j].key == Some(k))
    ensures forall k :: k in after <==> k in recorded || (k != "" && exists j :: 0 <= j < i + 1 && steps[j].key == Some(k))
  {
    forall k
      ensures (k != "" && exists j :: 0 <= j < i + 1 && steps[j].key == Some(k))
         <==> (k != "" && steps[i].key == Some(k)) || (k != "" && exists j :: 0 <= j < i && steps[j].key == Some(k))
    {
    }
    forall k
      ensures k in after <==> k in before || (k != "" && steps[i].key == Some(k))
    {
    }
  }

  lemma ThreeMoments(raises: Option<Moment>)
    ensures raises == None || raises == Some(BeforeTheGates) || raises == Some(AtTheGates) || raises == Some(AfterExecution)
  {
    match raises
    case None =>
    case Some(BeforeTheGates) =>
    case Some(AtTheGates) =>
    case Some(AfterExecution) =>
  }

  lemma StepGoesOnIff(sha: R.Sha, steps: seq<PlanStep>, answers: seq<Answers>, w: R.World, recorded: seq<string>, i: nat, e: Exec)
    requires |steps| == |answers| == |e.statuses| && i < |steps| && At(sha, steps, w, recorded, i, e)
    ensures var m := OneStep(sha, steps[i], answers[i], i, e);
      && (m.Continues? <==> AllWell(sha, steps, answers, w, recorded, i))
      && (m.Continues? ==> At(sha, steps, w, recorded, i + 1, m.next))
  {
    WorldAt(sha, steps, answers[i], w, recorded, i, e);
    var k := OneStepOutcome(sha, steps, answers, i, e, w);
    OneStepKeys(sha, steps[i], answers[i], i, e);
    hide Done, Perform, Unwind, KeyIsUsed, ToolWorks, Transactions.Outcome;
    ThreeMoments(answers[i].raises);
    if Perform(sha, steps[i], answers[i], e.world).Some? {
      PushedIsOfAction(sha, steps, answers[i], i, e);
    }
    hide OfActions, Executed;
    var m := OneStep(sha, steps[i], answers[i], i, e);
    if m.Continues? {
      RecordsOneMore(steps, recorded, i, e.recorded, m.next.recorded);
    }
  }

  lemma {:induction false} RunCompletesIff(sha: R.Sha, steps: seq<PlanStep>, answers: seq<Answers>, w: R.World, recorded: seq<string>, i: nat, e: Exec)
    requires |steps| == |answers| == |e.statuses| && i <= |steps| && At(sha, steps, w, recorded, i, e)
    ensures RunSteps(sha, steps, answers, i, e).1 == Completed
       <==> forall j: nat :: i <= j < |steps| ==> AllWell(sha, steps, answers, w, recorded, j)
    decreases |steps| - i
  {
    if i < |steps| {
      StepGoesOnIff(sha, steps, answers, w, recorded, i, e);
      OneStepEnds(sha, steps[i], answers[i], i, e);
      hide OneStep, AllWell, At;
      var m := OneStep(sha, steps[i], answers[i], i, e);
      if m.Continues? {
        RunCompletesIff(sha, steps, answers, w, recorded, i + 1, m.next);
      }
    }
  }

  lemma AtTheStart(sha: R.Sha, steps: seq<PlanStep>, statuses: seq<Plans.StepStatus>, w: R.World, recorded: seq<string>)
    requires |steps| == |statuses|
    ensures At(sha, steps, w, recorded, 0, Exec(w, statuses, [], recorded))
  {
    assert steps[..0] == [] && R.Run(sha, [], w) == (w, []);
  }

  lemma AllWellMeans(sha: R.Sha, steps: seq<PlanStep>, answers: seq<Answers>, w: R.World, recorded: seq<string>, i: nat)
    requires i < |steps| == |answers|
    ensures AllWell(sha, steps, answers, w, recorded, i)
      <==> (var step, a := steps[i], answers[i];
           && a.raises == None && !a.refused && a.preconditionsHold
           && (step.key == None || step.key == Some("")
               || (step.key.value !in recorded && forall j :: 0 <= j < i ==> steps[j].key != step.key))
           && (a.decision == Some(P.Approved) || (a.decision == Some(P.NeedsHuman) && a.humanApproves))
           && a.dryRunOk
           && (if step.action == None then a.readOk
               else R.Effect(sha, step.action.value, R.Run(sha, Actions(steps[..i]), w).0.hub) != None)
           && a.outputAccepted && a.predictionsHold && a.postconditionsHold)
  {
    hide R.Effect, R.Run, Actions;
  }

  /** A plan completes iff every step of it passed everything: nothing was raised, no gate refused
      it, its key was new, its preconditions held, the policy or a human agreed, the dry run and the
      tool worked, and output, predictions and postconditions were all found right. */
  lemma CompletesIff(sha: R.Sha, steps: seq<PlanStep>, answers: seq<Answers>, statuses: seq<Plans.StepStatus>,
                     w: R.World, recorded: seq<string>)
    requires |steps| == |answers| == |statuses|
    ensures ExecutePlan(sha, steps, answers, statuses, w, recorded).1 == Completed
      <==> forall i :: 0 <= i < |steps| ==>
             (var step, a := steps[i], answers[i];
              && a.raises == None && !a.refused && a.preconditionsHold
              && (step.key == None || step.key == Some("")
                  || (step.key.value !in recorded && forall j :: 0 <= j < i ==> steps[j].key != step.key))
              && (a.decision == Some(P.Approved) || (a.decision == Some(P.NeedsHuman) && a.humanApproves))
              && a.dryRunOk
              && (if step.action == None then a.readOk
                  else R.Effect(sha, step.action.value, R.Run(sha, Actions(steps[..i]), w).0.hub) != None)
              && a.outputAccepted && a.predictionsHold && a.postconditionsHold)
  {
    AtTheStart(sha, steps, statuses, w, recorded);
    RunCompletesIff(sha, steps, answers, w, recorded, 0, Exec(w, statuses, [], recorded));
    forall i: nat | i < |steps| {
      AllWellMeans(sha, steps, answers, w, recorded, i);
    }
    hide RunSteps, R.Effect, R.Run, Actions, At, AllWell;
  }

  // ---------- what a stop leaves ----------

  lemma {:induction false} UnwindKeepsOthers(sha: R.Sha, e: Exec, i: nat)
    requires i < |e.statuses| && WellFormed(e, i)
    ensures Unwind(sha, e).statuses[i] == e.statuses[i]
  {
    UnwindRollsBackAll(sha, e);
    assert !OnStack(e.stack, i);
  }

  /** The step itself is the last on the stack: its own rollback gives it its status. */
  lemma {:induction false} UnwindMarksLast(sha: R.Sha, e: Exec, i: nat, token: R.Token)
    requires i < |e.statuses| && e.stack != [] && e.stack[|e.stack| - 1] == Frame(token, i)
    requires forall f :: f in e.stack[..|e.stack| - 1] ==> f.step < i
    requires forall f :: f in e.stack ==> f.step < |e.statuses|
    ensures Unwind(sha, e).statuses[i] == if R.RollBack(sha, token, e.world).1 then Plans.RolledBack else Plans.StepFailed
  {
    var n := |e.stack| - 1;
    var (world, ok) := R.RollBack(sha, token, e.world);
    var next := Exec(world, e.statuses[i := if ok then Plans.RolledBack else Plans.StepFailed], e.stack[..n], e.recorded);
    UnwindKeepsOthers(sha, next, i);
    hide R.RollBack;
  }

  /** How a run ends at a step that does not pass everything, and the status the step is left with:
      the first check that it fails decides. */
  ghost predicate LeftWith(sha: R.Sha, steps: seq<PlanStep>, a: Answers, w: R.World, recorded: seq<string>, i: nat,
                           was: Plans.StepStatus, status: Plans.StepStatus, ending: Ending)
    requires i < |steps|
  {
    if a.raises == Some(BeforeTheGates) then ending == Escaped && status == was
    else if a.refused || KeyIsUsed(steps, recorded, i) || !a.preconditionsHold then ending == Stopped && status == Plans.Blocked
    else if a.raises == Some(AtTheGates) || a.decision == None then ending == Escaped && status == was
    else if a.decision == Some(P.Denied) then ending == Stopped && status == Plans.Blocked
    else if !a.dryRunOk then ending == Stopped && status == Plans.StepFailed
    else if a.decision == Some(P.NeedsHuman) && !a.humanApproves then ending == Stopped && status == Plans.Blocked
    else if !ToolWorks(sha, steps, a, w, i) then ending == Stopped && status == Plans.StepFailed
    else if a.raises == Some(AfterExecution) then ending == Escaped && status == Plans.Executed
    else ending == Stopped && status == UndoneStatus(sha, steps[i], R.Run(sha, Actions(steps[..i]), w).0)
  }

  /** A step whose work was done and not accepted: rolled back, if it has something to roll back
      and that succeeds. */
  function UndoneStatus(sha: R.Sha, step: PlanStep, world: R.World): Plans.StepStatus {
    if step.action.None? || R.Effect(sha, step.action.value, world.hub).None? then Plans.StepFailed
    else
      var (after, tokens) := R.Execute(sha, step.action.value, world);
      if R.RollBack(sha, R.Effect(sha, step.action.value, world.hub).value.1, after).1 then Plans.RolledBack else Plans.StepFailed
  }

  lemma WorkIsUndone(sha: R.Sha, step: PlanStep, a: Answers, i: nat, e: Exec)
    requires i < |e.statuses| && WellFormed(e, i) && Perform(sha, step, a, e.world).Some?
    ensures var done := Executed(e, i, Perform(sha, step, a, e.world).value);
      && done.statuses[i] == Plans.Executed && WellFormed(done, i + 1)
      && Unwind(sha, done.(statuses := done.statuses[i := Plans.StepFailed])).statuses[i] == UndoneStatus(sha, step, e.world)
  {
    var done := Executed(e, i, Perform(sha, step, a, e.world).value);
    var failed := done.(statuses := done.statuses[i := Plans.StepFailed]);
    if step.action.None? {
      UnwindKeepsOthers(sha, failed, i);
    } else {
      assert done.stack[..|done.stack| - 1] == e.stack;
      UnwindMarksLast(sha, failed, i, R.Effect(sha, step.action.value, e.world.hub).value.1);
    }
    hide Unwind, R.Effect, R.RollBack;
  }

  lemma {:induction false} StepLeftWith(sha: R.Sha, steps: seq<PlanStep>, answers: seq<Answers>, w: R.World, recorded: seq<string>, i: nat, e: Exec)
    requires |steps| == |answers| == |e.statuses| && i < |steps| && At(sha, steps, w, recorded, i, e)
    requires !AllWell(sha, steps, answers, w, recorded, i)
    ensures var (end, ending) := RunSteps(sha, steps, answers, i, e);
      LeftWith(sha, steps, answers[i], w, recorded, i, e.statuses[i], end.statuses[i], ending)
  {
    var step, a := steps[i], answers[i];
    StepGoesOnIff(sha, steps, answers, w, recorded, i, e);
    WorldAt(sha, steps, a, w, recorded, i, e);
    hide Unwind, AllWell, KeyIsUsed, ToolWorks, Perform, UndoneStatus, Actions, R.Run, Done, OfActions, Executed, Verified;
    match Admit(step, a, e.recorded)
    case Escapes =>
    case Stops(status) => UnwindKeepsOthers(sha, e.(statuses := e.statuses[i := status]), i);
    case Proceeds =>
      match Perform(sha, step, a, e.world) {
        case None => UnwindKeepsOthers(sha, e.(statuses := e.statuses[i := Plans.StepFailed]), i);
        case Some(effect) => WorkIsUndone(sha, step, a, i, e);
      }
  }

  /** What an unwinding leaves of the other steps: those on the stack are marked by their rollback. */
  lemma UnwindMarksOthers(sha: R.Sha, steps: seq<PlanStep>, w: R.World, i: nat, e: Exec, stopped: Exec)
    requires i <= |steps| == |e.statuses| == |stopped.statuses| && Done(sha, steps, w, i, e) && OfActions(steps, i, e.stack)
    requires (forall f :: f in stopped.stack ==> f.step <= i && f.step < |steps|)
    requires forall f: Frame :: f.step != i ==> (f in stopped.stack <==> f in e.stack)
    ensures forall j :: i < j < |steps| ==> Unwind(sha, stopped).statuses[j] == stopped.statuses[j]
    ensures forall j :: 0 <= j < i ==>
      if steps[j].action.Some? then Unwind(sha, stopped).statuses[j] in {Plans.RolledBack, Plans.StepFailed}
      else Unwind(sha, stopped).statuses[j] == stopped.statuses[j]
  {
    UnwindRollsBackAll(sha, stopped);
    hide Unwind, R.RollBackAll, Tokens, R.Run, Actions;
    forall j | 0 <= j < |steps| && j != i
      ensures OnStack(stopped.stack, j) <==> OnStack(e.stack, j)
    {
    }
    forall j | 0 <= j < i && steps[j].action.None?
      ensures !OnStack(e.stack, j)
    {
    }
  }

  lemma OthersLeftWith(sha: R.Sha, steps: seq<PlanStep>, answers: seq<Answers>, w: R.World, recorded: seq<string>, i: nat, e: Exec)
    requires |steps| == |answers| == |e.statuses| && i < |steps| && At(sha, steps, w, recorded, i, e)
    requires OneStep(sha, steps[i], answers[i], i, e).Ends?
    ensures var m := OneStep(sha, steps[i], answers[i], i, e);
      && (forall j :: i < j < |steps| ==> m.end.statuses[j] == e.statuses[j])
      && (forall j :: 0 <= j < i ==>
            if m.ending == Stopped && steps[j].action.Some? then m.end.statuses[j] in {Plans.RolledBack, Plans.StepFailed}
            else m.end.statuses[j] == e.statuses[j])
  {
    var step, a := steps[i], answers[i];
    hide Unwind, Perform, Done, OfActions, KeyIsUsed, Accepted;
    match Admit(step, a, e.recorded)
    case Escapes =>
    case Stops(status) => UnwindMarksOthers(sha, steps, w, i, e, e.(statuses := e.statuses[i := status]));
    case Proceeds =>
      match Perform(sha, step, a, e.world) {
        case None => UnwindMarksOthers(sha, steps, w, i, e, e.(statuses := e.statuses[i := Plans.StepFailed]));
        case Some(effect) =>
          var done := Executed(e, i, effect);
          PushKeeps(e.stack, effect.1, i);
          assert forall f: Frame :: f.step != i ==> (f in done.stack <==> f in e.stack);
          UnwindMarksOthers(sha, steps, w, i, e, done.(statuses := done.statuses[i := Plans.StepFailed]));
      }
  }

  /** The statuses before step `i`: verified so far, and as they were from there on. */
  ghost predicate Marked(statuses: seq<Plans.StepStatus>, i: nat, e: Exec) {
    && |e.statuses| == |statuses|
    && forall j :: 0 <= j < |statuses| ==> e.statuses[j] == if j < i then Plans.Verified else statuses[j]
  }

  lemma {:induction false} RunReaches(sha: R.Sha, steps: seq<PlanStep>, answers: seq<Answers>, statuses: seq<Plans.StepStatus>,
                                      w: R.World, recorded: seq<string>, i: nat) returns (e: Exec)
    requires |steps| == |answers| == |statuses| && i <= |steps|
    requires forall j: nat :: j < i ==> AllWell(sha, steps, answers, w, recorded, j)
    ensures At(sha, steps, w, recorded, i, e) && Marked(statuses, i, e)
    ensures RunSteps(sha, steps, answers, i, e) == ExecutePlan(sha, steps, answers, statuses, w, recorded)
  {
    if i == 0 {
      e := Exec(w, statuses, [], recorded);
      AtTheStart(sha, steps, statuses, w, recorded);
    } else {
      var before := RunReaches(sha, steps, answers, statuses, w, recorded, i - 1);
      StepGoesOnIff(sha, steps, answers, w, recorded, i - 1, before);
      var k := OneStepOutcome(sha, steps, answers, i - 1, before, w);
      e := OneStep(sha, steps[i - 1], answers[i - 1], i - 1, before).next;
      hide OneStep, AllWell, At, ExecutePlan, Transactions.Outcome, Done;
    }
  }

  /** A plan that does not complete: all steps before some step passed everything and that one did
      not. The first check it fails decides how the run ends and its status; later steps keep
      theirs; of the earlier ones a stop rolls back those that did something. */
  lemma {:induction false} FirstFailureDecides(sha: R.Sha, steps: seq<PlanStep>, answers: seq<Answers>, statuses: seq<Plans.StepStatus>,
                                               w: R.World, recorded: seq<string>, i: nat)
    requires |steps| == |answers| == |statuses| && i < |steps|
    requires (forall j: nat :: j < i ==> AllWell(sha, steps, answers, w, recorded, j)) && !AllWell(sha, steps, answers, w, recorded, i)
    ensures var (end, ending) := ExecutePlan(sha, steps, answers, statuses, w, recorded);
      && LeftWith(sha, steps, answers[i], w, recorded, i, statuses[i], end.statuses[i], ending)
      && (forall j :: i < j < |steps| ==> end.statuses[j] == statuses[j])
      && (forall j :: 0 <= j < i ==>
            if ending == Stopped && steps[j].action.Some? then end.statuses[j] in {Plans.RolledBack, Plans.StepFailed}
            else end.statuses[j] == Plans.Verified)
  {
    var e := RunReaches(sha, steps, answers, statuses, w, recorded, i);
    StepLeftWith(sha, steps, answers, w, recorded, i, e);
    StepGoesOnIff(sha, steps, answers, w, recorded, i, e);
    OthersLeftWith(sha, steps, answers, w, recorded, i, e);
    hide ExecutePlan, AllWell, LeftWith, Done, OneStep, At;
  }
}
