/** Documents that leave fields out: what a reader makes of the barest step, condition, criterion,
    budget, goal and plan. */
module PlanDefaults {
  import opened Tasks
  import opened PolicyDecisions
  import opened Plans
  import opened PlanJson
  import S = RuntimeStores

  const NO_LIMITS := Budget(None, None, None, None, None, None, None, Critical)

  lemma BareStep(tool: string)
    ensures DeserializeStep(JObject(map[KToolName := JStr(tool)]))
         == Ok(ActionStep(tool, [], "", Pending, Low, Irreversible, NoCompensation, 0.0, [], [], None, None, [], [], [], ""))
  {
    var j := JObject(map[KToolName := JStr(tool)]);
    BareCall(tool);
    BareNames(j);
    hide DeserializeCall, StepStatusAt, RiskAt, ReversibilityAt, CompensationAt;
  }

  lemma BareCall(tool: string)
    ensures DeserializeCall(JObject(map[KToolName := JStr(tool)]))
         == Ok(ActionStep(tool, [], "", Pending, Low, Irreversible, NoCompensation, 0.0, [], [], None, None, [], [], [], ""))
  {
  }

  /** A step whose document says nothing of these is pending, of low risk, and not to be undone. */
  lemma BareNames(j: Json)
    requires forall key :: key in {KStatus, KRisk, KReversibility, KCompensationStrategy} ==> Get(j, key) == None
    ensures StepStatusAt(j) == Ok(Pending) && RiskAt(j) == Ok(Low)
    ensures ReversibilityAt(j) == Ok(Irreversible) && CompensationAt(j) == Ok(NoCompensation)
  {
    assert StepStatusName(Pending) == "pending" && ReversibilityName(Irreversible) == "irreversible";
    assert CompensationName(NoCompensation) == "none";
    StatusNamesAreDistinct();
    OtherNamesAreDistinct();
    MemberOfName(STEP_STATUSES, StepStatusName, Pending);
    MemberOfName(REVERSIBILITIES, ReversibilityName, Irreversible);
    MemberOfName(COMPENSATIONS, CompensationName, NoCompensation);
    hide MemberOf, Injective, StepStatusName, ReversibilityName, CompensationName;
  }

  lemma BareCondition(variable: string)
    ensures DeserializeCondition(JObject(map[KVariable := JStr(variable)])) == Ok(StateCondition(variable, "exists", Null, None))
  {
  }

  lemma BareCriterion(key: string, op: string)
    requires ValidCriterion(Criterion(key, op, Null, None, true))
    ensures DeserializeCriterion(JObject(map[KKey := JStr(key), KOp := JStr(op)])) == Ok(Criterion(key, op, Null, None, true))
  {
  }

  lemma BareBudget()
    ensures DeserializeBudget(JObject(map[])) == Ok(NO_LIMITS)
  {
  }

  /** A goal has to have a description and a status; the runtime store asks for an identifier and
      takes a missing status as "created". */
  lemma BareGoal(description: string, status: GoalStatus)
    ensures DeserializeGoal(JObject(map[KDescription := JStr(description), KStatus := JStr(GoalStatusName(status))]))
         == Ok(Goal(description, [], [], [], [], 5, "", None, None, NO_LIMITS, status))
  {
    BareBudget();
    GoalStatusBack(status);
    hide DeserializeBudget, MemberOf, GoalStatusName;
  }

  lemma BareStoredGoal(description: string, id: string)
    ensures S.GoalFromDict(JObject(map[KDescription := JStr(description), KGoalId := JStr(id)]))
         == Ok(Goal(description, [], [], [], [], 5, id, None, None, NO_LIMITS, GoalCreated))
  {
    GoalStatusBack(GoalCreated);
    assert GoalStatusName(GoalCreated) == "created";
    hide MemberOf, GoalStatusName;
  }

  /** A plan has to have a goal. */
  lemma BarePlan(goal: Json, now: real)
    ensures DeserializePlan(JObject(map[KGoal := goal]), now)
         == match DeserializeGoal(goal) case Ok(g) => Ok(Plan(g, [], "", now, None)) case Err => Err
    ensures DeserializePlan(JObject(map[]), now) == Err
  {
    hide DeserializeGoal;
  }
}
