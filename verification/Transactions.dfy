/** The executor of plans: gates before each step, a stack of rollback tokens, and an unwinding
    of that stack when a step is stopped. Steps work on the GitHub repository. */
module Transactions {
  import opened Tasks
  import P = PolicyDecisions
  import R = GitHubRepository
  import Plans
  import L = LocalQueue

  /** A step of a plan. Tools that only read have no action on the repository. */
  datatype PlanStep = PlanStep(action: Option<R.Step>, key: Option<string>)

  /** When something the executor calls raises an exception that it does not catch. */
  datatype Moment = BeforeTheGates | AtTheGates | AfterExecution

  /** What the executor hears about one step. `refused` stands for the gates on production
      profiles, sandboxes and secrets; `decision` is None when the policy raises. */
  datatype Answers = Answers(
    raises: Option<Moment>,
    refused: bool,
    preconditionsHold: bool,
    decision: Option<P.Decision>,
    humanApproves: bool,
    dryRunOk: bool,
    readOk: bool,
    outputAccepted: bool,
    predictionsHold: bool,
    postconditionsHold: bool)

  datatype Frame = Frame(token: R.Token, step: nat)

  /** `recorded` lists the idempotency keys in the order in which they were used up. */
  datatype Exec = Exec(world: R.World, statuses: seq<Plans.StepStatus>, stack: seq<Frame>, recorded: seq<string>)

  datatype Ending = Completed | Stopped | Escaped

  // ---------- one step ----------

  datatype Verdict = Escapes | Stops(status: Plans.StepStatus) | Proceeds

  predicate Keyed(step: PlanStep) { step.key.Some? && step.key.value != "" }

  /** Everything that happens before the tool is executed. */
  function Admit(step: PlanStep, a: Answers, recorded: seq<string>): Verdict {
    if a.raises == Some(BeforeTheGates) then Escapes
    else if a.refused then Stops(Plans.Blocked)
    else if Keyed(step) && step.key.value in recorded then Stops(Plans.Blocked)
    else if !a.preconditionsHold then Stops(Plans.Blocked)
    else if a.raises == Some(AtTheGates) || a.decision.None? then Escapes
    else match a.decision.value
      case Denied => Stops(Plans.Blocked)
      case NeedsHuman =>
        if !a.dryRunOk then Stops(Plans.StepFailed) else if !a.humanApproves then Stops(Plans.Blocked) else Proceeds
      case Approved => if !a.dryRunOk then Stops(Plans.StepFailed) else Proceeds
  }

  /** The policy, or a human where it asks for one, agreed to the step. */
  predicate Agreed(a: Answers) {
    a.decision == Some(P.Approved) || (a.decision == Some(P.NeedsHuman) && a.humanApproves)
  }

  /** The tool's own effect; None when it reports a failure. */
  function Perform(sha: R.Sha, step: PlanStep, a: Answers, w: R.World): Option<(R.World, seq<R.Token>)> {
    match step.action
    case None => if a.readOk then Some((w, [])) else None
    case Some(action) => if R.Effect(sha, action, w.hub).Some? then Some(R.Execute(sha, action, w)) else None
  }

  predicate Accepted(a: Answers) { a.outputAccepted && a.predictionsHold && a.postconditionsHold }

  function Push(stack: seq<Frame>, tokens: seq<R.Token>, i: nat): seq<Frame> {
    if tokens == [] then stack else stack + [Frame(tokens[0], i)]
  }

  function Executed(e: Exec, i: nat, effect: (R.World, seq<R.Token>)): Exec
    requires i < |e.statuses|
  {
    Exec(effect.0, e.statuses[i := Plans.Executed], Push(e.stack, effect.1, i), e.recorded)
  }

  function Verified(e: Exec, i: nat, step: PlanStep): Exec
    requires i < |e.statuses|
  {
    e.(statuses := e.statuses[i := Plans.Verified],
       recorded := if Keyed(step) then e.recorded + [step.key.value] else e.recorded)
  }

  // ---------- unwinding ----------

  function Unwind(sha: R.Sha, e: Exec): (end: Exec)
    requires forall f :: f in e.stack ==> f.step < |e.statuses|
    ensures |end.statuses| == |e.statuses| && end.recorded == e.recorded
    decreases |e.stack|
  {
    if e.stack == [] then e
    else
      var n := |e.stack| - 1;
      var top := e.stack[n];
      var (world, ok) := R.RollBack(sha, top.token, e.world);
      Unwind(sha, Exec(world, e.statuses[top.step := if ok then Plans.RolledBack else Plans.StepFailed], e.stack[..n], e.recorded))
  }

  // ---------- the plan ----------

  ghost predicate WellFormed(e: Exec, i: nat) {
    i <= |e.statuses| && forall f :: f in e.stack ==> f.step < i
  }

  datatype Move = Ends(end: Exec, ending: Ending) | Continues(next: Exec)

  function OneStep(sha: R.Sha, step: PlanStep, a: Answers, i: nat, e: Exec): (m: Move)
    requires i < |e.statuses| && WellFormed(e, i)
    ensures |(if m.Ends? then m.end else m.next).statuses| == |e.statuses|
    ensures m.Continues? ==> WellFormed(m.next, i + 1)
  {
    match Admit(step, a, e.recorded)
    case Escapes => Ends(e, Escaped)
    case Stops(status) => Ends(Unwind(sha, e.(statuses := e.statuses[i := status])), Stopped)
    case Proceeds =>
      match Perform(sha, step, a, e.world)
      case None => Ends(Unwind(sha, e.(statuses := e.statuses[i := Plans.StepFailed])), Stopped)
      case Some(effect) =>
        var done := Executed(e, i, effect);
        if a.raises == Some(AfterExecution) then Ends(done, Escaped)
        else if !Accepted(a) then Ends(Unwind(sha, done.(statuses := done.statuses[i := Plans.StepFailed])), Stopped)
        else Continues(Verified(done, i, step))
  }

  function RunSteps(sha: R.Sha, steps: seq<PlanStep>, answers: seq<Answers>, i: nat, e: Exec): (r: (Exec, Ending))
    requires |steps| == |answers| == |e.statuses| && i <= |steps| && WellFormed(e, i)
    ensures |r.0.statuses| == |steps|
    decreases |steps| - i
  {
    if i == |steps| then (e, Completed)
    else match OneStep(sha, steps[i], answers[i], i, e)
      case Ends(end, ending) => (end, ending)
      case Continues(next) => RunSteps(sha, steps, answers, i + 1, next)
  }

  /** A plan starts with the statuses its steps have, which a plan run before has set. */
  function ExecutePlan(sha: R.Sha, steps: seq<PlanStep>, answers: seq<Answers>, statuses: seq<Plans.StepStatus>,
                       w: R.World, recorded: seq<string>): (r: (Exec, Ending))
    requires |steps| == |answers| == |statuses|
    ensures |r.0.statuses| == |steps|
  {
    RunSteps(sha, steps, answers, 0, Exec(w, statuses, [], recorded))
  }

  // ---------- what has been done so far ----------

  /** The repository steps of a plan, in order. */
  function Actions(steps: seq<PlanStep>): seq<R.Step> {
    if steps == [] then []
    else
      var n := |steps| - 1;
      Actions(steps[..n]) + match steps[n].action case None => [] case Some(action) => [action]
  }

  function Tokens(stack: seq<Frame>): seq<R.Token> {
    if stack == [] then [] else Tokens(stack[..|stack| - 1]) + [stack[|stack| - 1].token]
  }

  /** The world is that of the first `k` steps run in order from `w`; the stack holds their
      tokens, one for each step with an action. */
  ghost predicate Done(sha: R.Sha, steps: seq<PlanStep>, w: R.World, k: nat, e: Exec)
    requires k <= |steps|
  {
    && R.Run(sha, Actions(steps[..k]), w) == (e.world, Tokens(e.stack))
    && (forall j :: 0 <= j < k && steps[j].action.Some? ==> OnStack(e.stack, j))
  }

  ghost predicate OnStack(stack: seq<Frame>, j: int) {
    exists f :: f in stack && f.step == j
  }

  lemma {:induction false} RunAppend(sha: R.Sha, s: seq<R.Step>, x: R.Step, w: R.World)
    ensures var (w1, t1) := R.Run(sha, s, w);
      var (w2, t2) := R.Execute(sha, x, w1);
      R.Run(sha, s + [x], w) == (w2, t1 + t2)
    decreases s
  {
    if s == [] {
      assert [] + [x] == [x] && [x][1..] == [];
      var (w2, t2) := R.Execute(sha, x, w);
      assert t2 + [] == t2 == [] + t2;
    } else {
      var (after, token) := R.Execute(sha, s[0], w);
      RunAppend(sha, s[1..], x, after);
      assert (s + [x])[1..] == s[1..] + [x] && (s + [x])[0] == s[0];
      var (w1, t1) := R.Run(sha, s[1..], after);
      var (w2, t2) := R.Execute(sha, x, w1);
      assert token + (t1 + t2) == token + t1 + t2;
    }
  }

  lemma {:induction false} RollBackLast(sha: R.Sha, tokens: seq<R.Token>, last: R.Token, w: R.World)
    ensures var (w1, ok1) := R.RollBack(sha, last, w);
      var (w2, ok2) := R.RollBackAll(sha, tokens, w1);
      R.RollBackAll(sha, tokens + [last], w) == (w2, ok1 && ok2)
    decreases tokens
  {
    if tokens == [] {
      assert [] + [last] == [last] && [last][1..] == [];
      assert R.RollBackAll(sha, [], w) == (w, true);
    } else {
      assert (tokens + [last])[1..] == tokens[1..] + [last] && (tokens + [last])[0] == tokens[0];
      RollBackLast(sha, tokens[1..], last, w);
    }
  }

  /** Unwinding rolls back every token on the stack, last first, and marks each step. */
  lemma {:induction false} UnwindRollsBackAll(sha: R.Sha, e: Exec)
    requires forall f :: f in e.stack ==> f.step < |e.statuses|
    ensures var (w, ok) := R.RollBackAll(sha, Tokens(e.stack), e.world);
      var end := Unwind(sha, e);
      && end.world == w && end.recorded == e.recorded && |end.statuses| == |e.statuses|
      && (forall j :: 0 <= j < |e.statuses| ==>
          if !OnStack(e.stack, j) then end.statuses[j] == e.statuses[j]
          else end.statuses[j] in {Plans.RolledBack, Plans.StepFailed} && (ok ==> end.statuses[j] == Plans.RolledBack))
    decreases |e.stack|
  {
    if e.stack != [] {
      var n := |e.stack| - 1;
      var top := e.stack[n];
      var (world, ok) := R.RollBack(sha, top.token, e.world);
      var next := Exec(world, e.statuses[top.step := if ok then Plans.RolledBack else Plans.StepFailed], e.stack[..n], e.recorded);
      UnwindRollsBackAll(sha, next);
      RollBackLast(sha, Tokens(e.stack[..n]), top.token, e.world);
      assert e.stack == e.stack[..n] + [top];
      forall j | 0 <= j < |e.statuses|
        ensures OnStack(e.stack, j) <==> j == top.step || OnStack(next.stack, j)
      {
        assert top in e.stack;
        assert forall f :: f in next.stack ==> f in e.stack;
      }
    }
  }

  lemma PushKeeps(stack: seq<Frame>, tokens: seq<R.Token>, i: nat)
    ensures forall j :: OnStack(stack, j) ==> OnStack(Push(stack, tokens, i), j)
    ensures tokens != [] ==> OnStack(Push(stack, tokens, i), i)
    ensures |tokens| == 1 ==> Tokens(Push(stack, tokens, i)) == Tokens(stack) + tokens
    ensures forall f :: f in Push(stack, tokens, i) ==> f in stack || f.step == i
  {
    var pushed := Push(stack, tokens, i);
    assert forall f :: f in stack ==> f in pushed;
    if tokens != [] {
      assert Frame(tokens[0], i) in pushed && pushed[..|stack|] == stack;
    }
  }

  lemma ActionsAppend(steps: seq<PlanStep>, k: nat)
    requires k < |steps|
    ensures Actions(steps[..k + 1])
         == if steps[k].action.None? then Actions(steps[..k]) else Actions(steps[..k]) + [steps[k].action.value]
  {
    assert steps[..k + 1][..k] == steps[..k];
  }

  lemma PerformedOneMore(sha: R.Sha, steps: seq<PlanStep>, answers: seq<Answers>, w: R.World, k: nat, e: Exec)
    requires k < |steps| == |answers| == |e.statuses| && Done(sha, steps, w, k, e) && WellFormed(e, k)
    requires Perform(sha, steps[k], answers[k], e.world).Some?
    ensures var done := Executed(e, k, Perform(sha, steps[k], answers[k], e.world).value);
      Done(sha, steps, w, k + 1, done) && WellFormed(done, k + 1)
  {
    var effect := Perform(sha, steps[k], answers[k], e.world).value;
    PushKeeps(e.stack, effect.1, k);
    ActionsAppend(steps, k);
    if steps[k].action.Some? {
      RunAppend(sha, Actions(steps[..k]), steps[k].action.value, w);
      assert |effect.1| == 1 && effect == R.Execute(sha, steps[k].action.value, e.world);
    }
    hide R.Run, R.Execute, R.Effect, Actions, Tokens, OnStack, Push;
  }

  // ---------- every run of a plan ----------

  /** What a run can come to, with the number of steps whose tool did its work. */
  ghost predicate Outcome(sha: R.Sha, steps: seq<PlanStep>, w: R.World, k: nat, end: Exec, ending: Ending)
    requires k <= |steps|
  {
    var (world, tokens) := R.Run(sha, Actions(steps[..k]), w);
    && |end.statuses| == |steps|
    && match ending
       case Completed => k == |steps| && end.world == world && forall j :: 0 <= j < k ==> end.statuses[j] == Plans.Verified
       case Escaped => end.world == world
       case Stopped =>
         var (back, ok) := R.RollBackAll(sha, tokens, world);
         end.world == back && (ok ==> forall j :: 0 <= j < k && steps[j].action.Some? ==> end.statuses[j] == Plans.RolledBack)
  }

  lemma StopUndoesAll(sha: R.Sha, steps: seq<PlanStep>, w: R.World, k: nat, e: Exec, statuses: seq<Plans.StepStatus>)
    requires k <= |steps| == |statuses| && Done(sha, steps, w, k, e) && WellFormed(e.(statuses := statuses), k)
    ensures Outcome(sha, steps, w, k, Unwind(sha, e.(statuses := statuses)), Stopped)
  {
    UnwindRollsBackAll(sha, e.(statuses := statuses));
  }

  lemma DoneWhenVerified(sha: R.Sha, steps: seq<PlanStep>, w: R.World, k: nat, e: Exec, i: nat)
    requires k <= |steps| && i < |e.statuses| && i < |steps| && Done(sha, steps, w, k, e)
    ensures Done(sha, steps, w, k, Verified(e, i, steps[i]))
  {
  }

  lemma EndIsOutcome(sha: R.Sha, steps: seq<PlanStep>, w: R.World, k: nat, e: Exec)
    requires k <= |steps| == |e.statuses| && Done(sha, steps, w, k, e)
    ensures Outcome(sha, steps, w, k, e, Escaped)
    ensures k == |steps| && (forall j :: 0 <= j < k ==> e.statuses[j] == Plans.Verified) ==> Outcome(sha, steps, w, k, e, Completed)
  {
  }

  /** A step that ends the run, which may have done its work before; or one more step done. */
  lemma OneStepOutcome(sha: R.Sha, steps: seq<PlanStep>, a: seq<Answers>, i: nat, e: Exec, w: R.World) returns (k: nat)
    requires |steps| == |a| == |e.statuses| && i < |steps| && WellFormed(e, i) && Done(sha, steps, w, i, e)
    ensures var m := OneStep(sha, steps[i], a[i], i, e);
      && i <= k <= i + 1 && (k == i + 1 ==> Agreed(a[i]))
      && if m.Ends? then Outcome(sha, steps, w, k, m.end, m.ending) && m.ending != Completed
         else k == i + 1 && Done(sha, steps, w, k, m.next) && m.next.statuses == e.statuses[i := Plans.Verified]
  {
    hide Outcome, Unwind, Done, Perform;
    k := i;
    match Admit(steps[i], a[i], e.recorded)
    case Escapes => EndIsOutcome(sha, steps, w, i, e);
    case Stops(status) => StopUndoesAll(sha, steps, w, i, e, e.statuses[i := status]);
    case Proceeds =>
      match Perform(sha, steps[i], a[i], e.world) {
        case None => StopUndoesAll(sha, steps, w, i, e, e.statuses[i := Plans.StepFailed]);
        case Some(effect) =>
          k := i + 1;
          var done := Executed(e, i, effect);
          PerformedOneMore(sha, steps, a, w, i, e);
          EndIsOutcome(sha, steps, w, k, done);
          StopUndoesAll(sha, steps, w, k, done, done.statuses[i := Plans.StepFailed]);
          DoneWhenVerified(sha, steps, w, k, done, i);
      }
  }

  /** Every run is one of three: all steps verified and done in order; or a stop, after which
      exactly the steps done so far are undone, last first; or an exception that escapes and
      leaves them as they are. No tool has done its work without agreement. */
  lemma {:induction false} EveryRun(sha: R.Sha, steps: seq<PlanStep>, answers: seq<Answers>, i: nat, e: Exec, w: R.World) returns (k: nat)
    requires |steps| == |answers| == |e.statuses| && i <= |steps| && WellFormed(e, i) && Done(sha, steps, w, i, e)
    requires forall j :: 0 <= j < i ==> e.statuses[j] == Plans.Verified && Agreed(answers[j])
    ensures k <= |steps| && forall j :: 0 <= j < k ==> Agreed(answers[j])
    ensures var (end, ending) := RunSteps(sha, steps, answers, i, e); Outcome(sha, steps, w, k, end, ending)
    decreases |steps| - i
  {
    if i == |steps| {
      k := i;
      EndIsOutcome(sha, steps, w, i, e);
    } else {
      k := OneStepOutcome(sha, steps, answers, i, e, w);
      hide Outcome, Done, OneStep, Agreed;
      match OneStep(sha, steps[i], answers[i], i, e)
      case Ends(_, _) =>
      case Continues(next) => k := EveryRun(sha, steps, answers, i + 1, next, w);
    }
  }

  // ---------- all or nothing ----------

  lemma {:induction false} LegalPrefix(sha: R.Sha, s: seq<R.Step>, p: seq<R.Step>, w: R.World, mine: set<R.BranchKey>)
    requires R.Legal(sha, s, w, mine) && p <= s
    ensures R.Legal(sha, p, w, mine)
    decreases s
  {
    if p != [] {
      LegalPrefix(sha, s[1..], p[1..], R.Execute(sha, s[0], w).0, R.Mine(s[0], mine));
    }
  }

  lemma {:induction false} ActionsPrefix(steps: seq<PlanStep>, k: nat)
    requires k <= |steps|
    ensures Actions(steps[..k]) <= Actions(steps)
  {
    var n := |steps| - 1;
    if k == |steps| {
      assert steps[..k] == steps;
    } else {
      ActionsPrefix(steps[..n], k);
      assert steps[..n][..k] == steps[..k];
    }
  }

  /** A plan that keeps to branches it creates is all or nothing, unless an exception escapes:
      it is done in full with every step verified; or branches and files are as before and
      every step that had done something is rolled back; or, and only when the executor lets an
      exception through, the steps done so far stay done. */
  lemma AllOrNothing(sha: R.Sha, steps: seq<PlanStep>, answers: seq<Answers>, statuses: seq<Plans.StepStatus>,
                     w: R.World, recorded: seq<string>) returns (k: nat)
    requires |steps| == |answers| == |statuses|
    requires R.Legal(sha, Actions(steps), w, {}) && R.KeysResolve(w.hub)
    ensures k <= |steps| && forall j :: 0 <= j < k ==> Agreed(answers[j])
    ensures var (end, ending) := ExecutePlan(sha, steps, answers, statuses, w, recorded);
      match ending
      case Completed =>
        end.world == R.Run(sha, Actions(steps), w).0 && forall j :: 0 <= j < |steps| ==> end.statuses[j] == Plans.Verified
      case Stopped =>
        && end.world.hub.branches == w.hub.branches && end.world.hub.files == w.hub.files
        && forall j :: 0 <= j < k && steps[j].action.Some? ==> end.statuses[j] == Plans.RolledBack
      case Escaped => end.world == R.Run(sha, Actions(steps[..k]), w).0
  {
    var e := Exec(w, statuses, [], recorded);
    assert steps[..0] == [];
    assert R.Run(sha, [], w) == (w, []);
    k := EveryRun(sha, steps, answers, 0, e, w);
    ActionsPrefix(steps, k);
    LegalPrefix(sha, Actions(steps), Actions(steps[..k]), w, {});
    R.CompensationIsExact(sha, Actions(steps[..k]), w);
    assert k == |steps| ==> steps[..k] == steps;
    hide RunSteps, R.Run, R.RollBackAll, R.Legal, Actions;
  }

  // ---------- when an exception escapes ----------

  /** The state in which the run gets to step `j`; None when it ends before. */
  function Reached(sha: R.Sha, steps: seq<PlanStep>, answers: seq<Answers>, i: nat, e: Exec, j: nat): (r: Option<Exec>)
    requires |steps| == |answers| == |e.statuses| && i <= j < |steps| && WellFormed(e, i)
    ensures r.Some? ==> |r.value.statuses| == |steps| && WellFormed(r.value, j)
    decreases j - i
  {
    if i == j then Some(e)
    else match OneStep(sha, steps[i], answers[i], i, e)
      case Ends(_, _) => None
      case Continues(next) => Reached(sha, steps, answers, i + 1, next, j)
  }

  /** No gate before the policy stops the step. */
  predicate Unhindered(step: PlanStep, a: Answers, recorded: seq<string>) {
    !a.refused && a.preconditionsHold && !(Keyed(step) && step.key.value in recorded)
  }

  /** Something raises at a moment that the step gets to, or the policy has no decision. */
  predicate RaisesAt(sha: R.Sha, step: PlanStep, a: Answers, e: Exec) {
    || a.raises == Some(BeforeTheGates)
    || (Unhindered(step, a, e.recorded) && (a.raises == Some(AtTheGates) || a.decision.None?))
    || (Unhindered(step, a, e.recorded) && a.raises == Some(AfterExecution)
        && Agreed(a) && a.dryRunOk && Perform(sha, step, a, e.world).Some?)
  }

  lemma OneStepEnds(sha: R.Sha, step: PlanStep, a: Answers, i: nat, e: Exec)
    requires i < |e.statuses| && WellFormed(e, i)
    ensures var m := OneStep(sha, step, a, i, e); m.Ends? ==> m.ending != Completed
  {
  }

  lemma OneStepEscapesIff(sha: R.Sha, step: PlanStep, a: Answers, i: nat, e: Exec)
    requires i < |e.statuses| && WellFormed(e, i)
    ensures var m := OneStep(sha, step, a, i, e); (m.Ends? && m.ending == Escaped) <==> RaisesAt(sha, step, a, e)
  {
    hide Unwind, Perform;
  }

  ghost predicate RaisesOnTheWay(sha: R.Sha, steps: seq<PlanStep>, answers: seq<Answers>, i: nat, e: Exec, j: nat)
    requires |steps| == |answers| == |e.statuses| && i <= j < |steps| && WellFormed(e, i)
  {
    var r := Reached(sha, steps, answers, i, e, j);
    r.Some? && RaisesAt(sha, steps[j], answers[j], r.value)
  }

  lemma {:induction false} EscapeHasCause(sha: R.Sha, steps: seq<PlanStep>, answers: seq<Answers>, i: nat, e: Exec) returns (j: nat)
    requires |steps| == |answers| == |e.statuses| && i <= |steps| && WellFormed(e, i)
    requires RunSteps(sha, steps, answers, i, e).1 == Escaped
    ensures i <= j < |steps| && RaisesOnTheWay(sha, steps, answers, i, e, j)
    decreases |steps| - i
  {
    OneStepEscapesIff(sha, steps[i], answers[i], i, e);
    hide OneStep, RaisesAt;
    match OneStep(sha, steps[i], answers[i], i, e)
    case Ends(_, _) => j := i;
    case Continues(next) => j := EscapeHasCause(sha, steps, answers, i + 1, next);
  }

  lemma {:induction false} CauseEscapes(sha: R.Sha, steps: seq<PlanStep>, answers: seq<Answers>, i: nat, e: Exec, j: nat)
    requires |steps| == |answers| == |e.statuses| && i <= j < |steps| && WellFormed(e, i)
    requires RaisesOnTheWay(sha, steps, answers, i, e, j)
    ensures RunSteps(sha, steps, answers, i, e).1 == Escaped
    decreases |steps| - i
  {
    OneStepEscapesIff(sha, steps[i], answers[i], i, e);
    hide OneStep, RaisesAt;
    if i < j {
      CauseEscapes(sha, steps, answers, i + 1, OneStep(sha, steps[i], answers[i], i, e).next, j);
    }
  }

  /** An exception escapes iff something raises at a step that the run reaches, at a moment that
      it gets to there. */
  lemma EscapesIff(sha: R.Sha, steps: seq<PlanStep>, answers: seq<Answers>, i: nat, e: Exec)
    requires |steps| == |answers| == |e.statuses| && i <= |steps| && WellFormed(e, i)
    ensures RunSteps(sha, steps, answers, i, e).1 == Escaped
      <==> exists j: nat :: i <= j < |steps| && RaisesOnTheWay(sha, steps, answers, i, e, j)
  {
    if RunSteps(sha, steps, answers, i, e).1 == Escaped {
      var j := EscapeHasCause(sha, steps, answers, i, e);
    }
    if j: nat :| i <= j < |steps| && RaisesOnTheWay(sha, steps, answers, i, e, j) {
      CauseEscapes(sha, steps, answers, i, e, j);
    }
    hide RunSteps, Reached;
  }

  /** When nothing raises, an exception cannot escape. */
  lemma OnlyExceptionsEscape(sha: R.Sha, steps: seq<PlanStep>, answers: seq<Answers>, i: nat, e: Exec)
    requires |steps| == |answers| == |e.statuses| && i <= |steps| && WellFormed(e, i)
    requires forall j :: 0 <= j < |answers| ==> answers[j].raises.None? && answers[j].decision.Some?
    ensures RunSteps(sha, steps, answers, i, e).1 != Escaped
  {
    EscapesIff(sha, steps, answers, i, e);
    hide RunSteps, Reached;
  }

  /** Every gate agrees and every check passes. */
  const GOOD := Answers(None, false, true, Some(P.Approved), true, true, true, true, true, true)

  /** What an escape leaves behind: a branch was created, the next step raises at once, and the
      repository keeps the branch, whatever it held and whatever the next step is. */
  lemma EscapeLeavesWork(sha: R.Sha, create: R.Step, next: PlanStep, w: R.World, recorded: seq<string>)
    requires create.BranchStep? && R.Vacant(w.hub, R.BranchKey(create.repo, create.branch))
    ensures var steps := [PlanStep(Some(create), None), next];
      var answers := [GOOD, GOOD.(raises := Some(BeforeTheGates))];
      var (end, ending) := ExecutePlan(sha, steps, answers, [Plans.Pending, Plans.Pending], w, recorded);
      && ending == Escaped && end.statuses == [Plans.Verified, Plans.Pending]
      && R.BranchKey(create.repo, create.branch) in end.world.hub.branches
      && end.world.hub.branches != w.hub.branches
  {
    var steps := [PlanStep(Some(create), None), next];
    var answers := [GOOD, GOOD.(raises := Some(BeforeTheGates))];
    var e := Exec(w, [Plans.Pending, Plans.Pending], [], recorded);
    var m := OneStep(sha, steps[0], answers[0], 0, e);
    assert m.Continues? && R.BranchKey(create.repo, create.branch) in m.next.world.hub.branches;
    assert OneStep(sha, steps[1], answers[1], 1, m.next) == Ends(m.next, Escaped);
    assert RunSteps(sha, steps, answers, 1, m.next) == (m.next, Escaped);
  }

  // ---------- idempotency keys ----------

  predicate Distinct(keys: seq<string>) {
    forall a, b :: 0 <= a < b < |keys| ==> keys[a] != keys[b]
  }

  lemma OneStepKeys(sha: R.Sha, step: PlanStep, a: Answers, i: nat, e: Exec)
    requires i < |e.statuses| && WellFormed(e, i)
    ensures var m := OneStep(sha, step, a, i, e);
      && (m.Ends? ==> m.end.recorded == e.recorded)
      && (m.Continues? ==> m.next.recorded == if Keyed(step) then e.recorded + [step.key.value] else e.recorded)
      && (m.Continues? && Keyed(step) ==> step.key.value !in e.recorded)
      && (Keyed(step) && step.key.value in e.recorded ==> m.Ends? && m.ending != Completed)
  {
  }

  lemma OneMoreKey(keys: seq<string>, key: Option<string>)
    requires Distinct(keys)
    ensures key.Some? && key.value !in keys ==> Distinct(keys + [key.value])
  {
  }

  lemma {:induction false} KeysAreUsedOnce(sha: R.Sha, steps: seq<PlanStep>, answers: seq<Answers>, i: nat, e: Exec)
    requires |steps| == |answers| == |e.statuses| && i <= |steps| && WellFormed(e, i) && Distinct(e.recorded)
    ensures var end := RunSteps(sha, steps, answers, i, e).0;
      Distinct(end.recorded) && e.recorded <= end.recorded
    decreases |steps| - i
  {
    if i < |steps| {
      OneStepKeys(sha, steps[i], answers[i], i, e);
      OneMoreKey(e.recorded, steps[i].key);
      hide OneStep, Distinct;
      match OneStep(sha, steps[i], answers[i], i, e)
      case Ends(_, _) =>
      case Continues(next) => KeysAreUsedOnce(sha, steps, answers, i + 1, next);
    }
  }

  datatype Execution = Execution(steps: seq<PlanStep>, answers: seq<Answers>, statuses: seq<Plans.StepStatus>)

  predicate Fits(x: Execution) { |x.steps| == |x.answers| == |x.statuses| }

  /** Plans executed one after the other on one agent's state. */
  function Session(sha: R.Sha, plans: seq<Execution>, w: R.World, recorded: seq<string>): (R.World, seq<string>)
    requires forall x :: x in plans ==> Fits(x)
  {
    if plans == [] then (w, recorded)
    else
      var x := plans[0];
      assert Fits(x);
      var (end, _) := ExecutePlan(sha, x.steps, x.answers, x.statuses, w, recorded);
      Session(sha, plans[1..], end.world, end.recorded)
  }

  /** Over any number of plans, an idempotency key is recorded at most once, and stays so. */
  lemma {:induction false} KeysAreRecordedOnce(sha: R.Sha, plans: seq<Execution>, w: R.World, recorded: seq<string>)
    requires (forall x :: x in plans ==> Fits(x)) && Distinct(recorded)
    ensures Distinct(Session(sha, plans, w, recorded).1) && recorded <= Session(sha, plans, w, recorded).1
  {
    if plans != [] {
      var x := plans[0];
      assert Fits(x);
      var e := Exec(w, x.statuses, [], recorded);
      KeysAreUsedOnce(sha, x.steps, x.answers, 0, e);
      var end := RunSteps(sha, x.steps, x.answers, 0, e).0;
      KeysAreRecordedOnce(sha, plans[1..], end.world, end.recorded);
    }
  }

  /** A plan with a step whose key is used up never completes, whatever the gates answer. */
  lemma {:induction false} UsedKeyBlocks(sha: R.Sha, steps: seq<PlanStep>, answers: seq<Answers>, i: nat, e: Exec, j: nat)
    requires |steps| == |answers| == |e.statuses| && i <= j < |steps| && WellFormed(e, i)
    requires Keyed(steps[j]) && steps[j].key.value in e.recorded
    ensures RunSteps(sha, steps, answers, i, e).1 != Completed
    decreases |steps| - i
  {
    OneStepKeys(sha, steps[i], answers[i], i, e);
    OneStepEnds(sha, steps[i], answers[i], i, e);
    hide OneStep;
    match OneStep(sha, steps[i], answers[i], i, e)
    case Ends(_, _) =>
    case Continues(next) => UsedKeyBlocks(sha, steps, answers, i + 1, next, j);
  }

  /** The run gets past step `j`, with everything up to it verified. */
  predicate Passes(sha: R.Sha, steps: seq<PlanStep>, answers: seq<Answers>, i: nat, e: Exec, j: nat)
    requires |steps| == |answers| == |e.statuses| && i <= j < |steps| && WellFormed(e, i)
    decreases j - i
  {
    match OneStep(sha, steps[i], answers[i], i, e)
    case Ends(_, _) => false
    case Continues(next) => i == j || Passes(sha, steps, answers, i + 1, next, j)
  }

  /** Keys of steps that were verified before a stop are used up although the steps are undone. */
  lemma {:induction false} UndoneKeysStayUsed(sha: R.Sha, steps: seq<PlanStep>, answers: seq<Answers>, i: nat, e: Exec, j: nat)
    requires |steps| == |answers| == |e.statuses| && i <= j < |steps| && WellFormed(e, i) && Distinct(e.recorded)
    requires Keyed(steps[j]) && Passes(sha, steps, answers, i, e, j)
    ensures steps[j].key.value in RunSteps(sha, steps, answers, i, e).0.recorded
    decreases |steps| - i
  {
    OneStepKeys(sha, steps[i], answers[i], i, e);
    hide OneStep;
    var next := OneStep(sha, steps[i], answers[i], i, e).next;
    if i < j {
      UndoneKeysStayUsed(sha, steps, answers, i + 1, next, j);
    } else {
      KeysAreUsedOnce(sha, steps, answers, i + 1, next);
      assert next.recorded[|next.recorded| - 1] == steps[j].key.value;
    }
  }

  /** So a plan that was stopped after a keyed step had been verified, and undone, can never be
      carried out by running it again on the same state. */
  lemma {:induction false} RetryAfterUndoingFails(sha: R.Sha, steps: seq<PlanStep>, first: seq<Answers>, again: seq<Answers>,
                               statuses: seq<Plans.StepStatus>, w: R.World, recorded: seq<string>, j: nat)
    requires |steps| == |first| == |again| == |statuses| && Distinct(recorded) && j < |steps| && Keyed(steps[j])
    requires Passes(sha, steps, first, 0, Exec(w, statuses, [], recorded), j)
    ensures var (end, _) := ExecutePlan(sha, steps, first, statuses, w, recorded);
      ExecutePlan(sha, steps, again, end.statuses, end.world, end.recorded).1 != Completed
  {
    var e := Exec(w, statuses, [], recorded);
    UndoneKeysStayUsed(sha, steps, first, 0, e, j);
    var end := RunSteps(sha, steps, first, 0, e).0;
    UsedKeyBlocks(sha, steps, again, 0, Exec(end.world, end.statuses, [], end.recorded), j);
  }

  // ---------- running a plan again ----------

  predicate SameContent(a: R.Repository, b: R.Repository) {
    a.branches == b.branches && a.files == b.files
  }

  lemma EffectSame(sha: R.Sha, action: R.Step, a: R.Repository, b: R.Repository)
    requires SameContent(a, b)
    ensures R.Effect(sha, action, a).Some? <==> R.Effect(sha, action, b).Some?
    ensures R.Effect(sha, action, a).Some? ==> SameContent(R.Effect(sha, action, a).value.0, R.Effect(sha, action, b).value.0)
  {
    match action
    case BranchStep(repo, branch, base, _) =>
      var made := R.CreateBranch(a, repo, branch, base);
      assert made.files == R.CreateBranch(b, repo, branch, base).files;
    case FileStep(key, content, _, _, _) => assert R.FileAt(a, key) == R.FileAt(b, key);
    case PrStep(_, _, _) =>
  }

  lemma PerformSame(sha: R.Sha, step: PlanStep, a: Answers, w1: R.World, w2: R.World)
    requires SameContent(w1.hub, w2.hub)
    ensures var p1, p2 := Perform(sha, step, a, w1), Perform(sha, step, a, w2);
      (p1.Some? <==> p2.Some?) && (p1.Some? ==> SameContent(p1.value.0.hub, p2.value.0.hub))
  {
    if step.action.Some? {
      EffectSame(sha, step.action.value, w1.hub, w2.hub);
    }
    hide R.Effect, SameContent;
  }

  lemma OneStepSame(sha: R.Sha, step: PlanStep, a: Answers, i: nat, e1: Exec, e2: Exec)
    requires i < |e1.statuses| == |e2.statuses| && WellFormed(e1, i) && WellFormed(e2, i)
    requires SameContent(e1.world.hub, e2.world.hub) && e1.recorded == e2.recorded
    ensures var m1, m2 := OneStep(sha, step, a, i, e1), OneStep(sha, step, a, i, e2);
      && (m1.Ends? <==> m2.Ends?) && (m1.Ends? ==> m1.ending == m2.ending)
      && (m1.Continues? ==> SameContent(m1.next.world.hub, m2.next.world.hub) && m1.next.recorded == m2.next.recorded)
  {
    PerformSame(sha, step, a, e1.world, e2.world);
    hide Perform, Unwind, SameContent;
  }

  /** How a run ends depends on branches, files and used-up keys alone. */
  lemma {:induction false} SameEnding(sha: R.Sha, steps: seq<PlanStep>, answers: seq<Answers>, i: nat, e1: Exec, e2: Exec)
    requires |steps| == |answers| == |e1.statuses| == |e2.statuses| && i <= |steps| && WellFormed(e1, i) && WellFormed(e2, i)
    requires SameContent(e1.world.hub, e2.world.hub) && e1.recorded == e2.recorded
    ensures RunSteps(sha, steps, answers, i, e1).1 == RunSteps(sha, steps, answers, i, e2).1
    decreases |steps| - i
  {
    if i < |steps| {
      OneStepSame(sha, steps[i], answers[i], i, e1, e2);
      hide OneStep, SameContent;
      var m1, m2 := OneStep(sha, steps[i], answers[i], i, e1), OneStep(sha, steps[i], answers[i], i, e2);
      if m1.Continues? {
        SameEnding(sha, steps, answers, i + 1, m1.next, m2.next);
      }
    }
  }

  /** A run uses up no key when it gets past no keyed step. */
  lemma {:induction false} NoKeyPassedNoneUsed(sha: R.Sha, steps: seq<PlanStep>, answers: seq<Answers>, i: nat, e: Exec)
    requires |steps| == |answers| == |e.statuses| && i <= |steps| && WellFormed(e, i)
    requires forall j: nat :: i <= j < |steps| && Keyed(steps[j]) ==> !Passes(sha, steps, answers, i, e, j)
    ensures RunSteps(sha, steps, answers, i, e).0.recorded == e.recorded
    decreases |steps| - i
  {
    if i < |steps| {
      OneStepKeys(sha, steps[i], answers[i], i, e);
      hide OneStep;
      match OneStep(sha, steps[i], answers[i], i, e)
      case Ends(_, _) =>
      case Continues(next) =>
        assert Passes(sha, steps, answers, i, e, i);
        forall j: nat | i < j < |steps| && Keyed(steps[j])
          ensures !Passes(sha, steps, answers, i + 1, next, j)
        {
          assert !Passes(sha, steps, answers, i, e, j);
        }
        NoKeyPassedNoneUsed(sha, steps, answers, i + 1, next);
    }
  }

  /** The run got past a step with a key before it ended. */
  ghost predicate PassesKeyed(sha: R.Sha, steps: seq<PlanStep>, answers: seq<Answers>, e: Exec)
    requires |steps| == |answers| == |e.statuses| && WellFormed(e, 0)
  {
    exists j: nat :: j < |steps| && Keyed(steps[j]) && Passes(sha, steps, answers, 0, e, j)
  }

  /** A plan that was stopped, and could have been carried out, can be carried out by running it
      again iff the stopped run had not got past a keyed step. */
  lemma RerunCompletesIff(sha: R.Sha, steps: seq<PlanStep>, first: seq<Answers>, good: seq<Answers>,
                          statuses: seq<Plans.StepStatus>, w: R.World, recorded: seq<string>)
    requires |steps| == |first| == |good| == |statuses| && Distinct(recorded)
    requires R.Legal(sha, Actions(steps), w, {}) && R.KeysResolve(w.hub)
    requires ExecutePlan(sha, steps, first, statuses, w, recorded).1 == Stopped
    requires ExecutePlan(sha, steps, good, statuses, w, recorded).1 == Completed
    ensures var end := ExecutePlan(sha, steps, first, statuses, w, recorded).0;
      ExecutePlan(sha, steps, good, end.statuses, end.world, end.recorded).1 == Completed
      <==> !PassesKeyed(sha, steps, first, Exec(w, statuses, [], recorded))
  {
    var e := Exec(w, statuses, [], recorded);
    var end := ExecutePlan(sha, steps, first, statuses, w, recorded).0;
    if PassesKeyed(sha, steps, first, e) {
      var j: nat :| j < |steps| && Keyed(steps[j]) && Passes(sha, steps, first, 0, e, j);
      RetryAfterUndoingFails(sha, steps, first, good, statuses, w, recorded, j);
    } else {
      NoKeyPassedNoneUsed(sha, steps, first, 0, e);
      var k := AllOrNothing(sha, steps, first, statuses, w, recorded);
      SameEnding(sha, steps, good, 0, Exec(end.world, end.statuses, [], end.recorded), e);
    }
    hide RunSteps, Passes, R.Legal;
  }

  // ---------- the goal's status after the plan ----------

  function Count(statuses: seq<Plans.StepStatus>, s: Plans.StepStatus): nat {
    if statuses == [] then 0 else Count(statuses[1..], s) + if statuses[0] == s then 1 else 0
  }

  function FinalGoalStatus(statuses: seq<Plans.StepStatus>): Plans.GoalStatus {
    if statuses == [] then Plans.GoalPartiallyDone
    else if Count(statuses, Plans.Verified) > 0 then Plans.GoalPartiallyDone
    else if Plans.Blocked in statuses then Plans.GoalBlocked
    else Plans.GoalFailed
  }

  /** Starting a plan takes its goal to running: by way of planning from a new goal, not at all
      when it is running already, and otherwise only where that transition is allowed. */
  predicate CanStart(goal: Plans.GoalStatus) {
    goal in {Plans.GoalCreated, Plans.GoalRunning} || Plans.GoalRunning in Plans.AllowedAfter(goal)
  }

  /** A plan object is run: the goal's status with it. The refused transition raises, and an
      exception that escapes leaves the goal running. */
  function ExecuteObject(sha: R.Sha, goal: Plans.GoalStatus, steps: seq<PlanStep>, answers: seq<Answers>,
                         statuses: seq<Plans.StepStatus>, w: R.World, recorded: seq<string>)
    : (r: (Plans.GoalStatus, Exec, Ending))
    requires |steps| == |answers| == |statuses|
    ensures |r.1.statuses| == |steps|
  {
    if !CanStart(goal) then (goal, Exec(w, statuses, [], recorded), Escaped)
    else
      var (end, ending) := ExecutePlan(sha, steps, answers, statuses, w, recorded);
      (if ending == Escaped then Plans.GoalRunning else FinalGoalStatus(end.statuses), end, ending)
  }

  /** The transition to the final status is always allowed, and from there the plan can be started
      again iff the goal has not failed. */
  lemma FinalGoalCanStart(statuses: seq<Plans.StepStatus>)
    ensures FinalGoalStatus(statuses) in Plans.AllowedAfter(Plans.GoalRunning)
    ensures CanStart(FinalGoalStatus(statuses)) <==> FinalGoalStatus(statuses) != Plans.GoalFailed
  {
  }

  /** The same plan object run again: it completes iff the stopped run had not got past a keyed
      step and did not leave its goal failed. */
  lemma RerunObjectCompletesIff(sha: R.Sha, goal: Plans.GoalStatus, steps: seq<PlanStep>, first: seq<Answers>, good: seq<Answers>,
                                statuses: seq<Plans.StepStatus>, w: R.World, recorded: seq<string>)
    requires |steps| == |first| == |good| == |statuses| && Distinct(recorded) && CanStart(goal)
    requires R.Legal(sha, Actions(steps), w, {}) && R.KeysResolve(w.hub)
    requires ExecuteObject(sha, goal, steps, first, statuses, w, recorded).2 == Stopped
    requires ExecuteObject(sha, goal, steps, good, statuses, w, recorded).2 == Completed
    ensures var (after, end, _) := ExecuteObject(sha, goal, steps, first, statuses, w, recorded);
      ExecuteObject(sha, after, steps, good, end.statuses, end.world, end.recorded).2 == Completed
      <==> !PassesKeyed(sha, steps, first, Exec(w, statuses, [], recorded)) && FinalGoalStatus(end.statuses) != Plans.GoalFailed
  {
    var end := ExecutePlan(sha, steps, first, statuses, w, recorded).0;
    RerunCompletesIff(sha, steps, first, good, statuses, w, recorded);
    FinalGoalCanStart(end.statuses);
    hide ExecutePlan, PassesKeyed, R.Legal, FinalGoalStatus, CanStart;
  }

  lemma {:induction false} CountedIffPresent(statuses: seq<Plans.StepStatus>, s: Plans.StepStatus)
    ensures Count(statuses, s) > 0 <==> s in statuses
  {
    if statuses != [] {
      CountedIffPresent(statuses[1..], s);
      assert statuses == [statuses[0]] + statuses[1..];
    }
  }

  /** The executor leaves a goal partly done even when every step was verified, so a task runner
      on top of it never completes a task: it requeues the task while attempts are left, and
      fails it with the last one. */
  lemma ExecutorNeverCompletesTask(secretLike: string -> bool, s: L.QueueState, worker: WorkerId, now: real, statuses: seq<Plans.StepStatus>)
    requires L.WellFormed(s)
    ensures FinalGoalStatus(statuses) == Plans.GoalPartiallyDone <==> statuses == [] || Plans.Verified in statuses
    ensures var goal := FinalGoalStatus(statuses);
      var ended := L.RunEnded(goal == Plans.GoalSucceeded, Plans.GoalStatusName(goal));
      var got := L.RunNext(secretLike, s, worker, now, ended).1;
      match L.FirstQueued(s.tasks, s.order)
      case None => got == Idle
      case Some(t) => got.Returned? && got.task.status == if s.tasks[t].attempts + 1 < s.tasks[t].spec.maxAttempts then Queued else Failed
  {
    CountedIffPresent(statuses, Plans.Verified);
    var goal := FinalGoalStatus(statuses);
    L.RunNextSettles(secretLike, s, worker, now, L.RunEnded(goal == Plans.GoalSucceeded, Plans.GoalStatusName(goal)));
    hide L.RunNext;
  }
}
