/** Goals, plans and their steps, and the Python values and JSON trees they carry. */
module Plans {
  import opened Tasks
  import opened PolicyDecisions

  /** A Python value. `Opaque` stands for anything that JSON cannot express. */
  datatype Value =
    | Null
    | Bool(flag: bool)
    | Int(number: int)
    | Float(decimal: real)
    | Str(text: string)
    | List(items: seq<Value>)
    | Tuple(items: seq<Value>)
    | Dict(entries: seq<Item>)
    | Opaque

  datatype Item = Item(key: string, value: Value)

  datatype GoalStatus =
    | GoalCreated | GoalClarifying | GoalPlanning | GoalAwaitingApproval | GoalRunning | GoalPaused
    | GoalBlocked | GoalFailed | GoalPartiallyDone | GoalSucceeded | GoalCancelled | GoalArchived

  datatype StepStatus = Pending | DryRunOk | Executed | Verified | RolledBack | StepFailed | Blocked

  datatype Compensation = Undo | Compensate | Manual | NoCompensation

  datatype Trust = TrustVerified | TrustObserved | UserProvided | ToolReported | ModelInferred | UntrustedExternal

  datatype Budget = Budget(
    maxTokens: Option<int>,
    maxCostUsd: Option<real>,
    maxRuntimeSeconds: Option<real>,
    maxToolCalls: Option<int>,
    maxRetries: Option<int>,
    maxNetworkRequests: Option<int>,
    maxFileWrites: Option<int>,
    maxRiskLevel: Risk)

  datatype Criterion = Criterion(key: string, op: string, value: Value, source: Option<string>, required: bool)

  datatype Goal = Goal(
    description: string,
    successCriteria: seq<string>,
    criteria: seq<Criterion>,
    constraints: seq<string>,
    stopConditions: seq<string>,
    priority: int,
    goalId: string,
    owner: Option<string>,
    deadline: Option<real>,
    budget: Budget,
    status: GoalStatus)

  datatype StateCondition = StateCondition(variable: string, operator: string, value: Value, trust: Option<Trust>)

  datatype ActionStep = ActionStep(
    toolName: string,
    arguments: seq<Item>,
    reason: string,
    status: StepStatus,
    risk: Risk,
    reversibility: Reversibility,
    compensation: Compensation,
    rollbackReliability: real,
    requiredPermissions: seq<Permission>,
    predictions: seq<string>,
    counterfactualReport: Option<string>,
    idempotencyKey: Option<string>,
    preconditions: seq<StateCondition>,
    postconditions: seq<StateCondition>,
    invariants: seq<StateCondition>,
    stepId: string)

  datatype Plan = Plan(goal: Goal, steps: seq<ActionStep>, planId: string, createdAt: real, budget: Option<Budget>)

  // ---------- what the constructors insist on ----------

  const CRITERION_OPS: set<string> :=
    {"equals", "not_equals", "in", "not_in", "exists", "missing", "contains", "greater_than", "less_than"}

  const CONDITION_OPERATORS: set<string> := {"exists", "not_exists", "equals"}

  predicate ValidCriterion(c: Criterion) { c.key != "" && c.op in CRITERION_OPS }

  predicate ValidCondition(c: StateCondition) { c.operator in CONDITION_OPERATORS }

  predicate AtLeastZero(x: Option<int>) { x.Some? ==> x.value >= 0 }

  predicate AtLeastZeroReal(x: Option<real>) { x.Some? ==> x.value >= 0.0 }

  predicate ValidBudget(b: Budget) {
    && AtLeastZero(b.maxTokens) && AtLeastZeroReal(b.maxCostUsd) && AtLeastZeroReal(b.maxRuntimeSeconds)
    && AtLeastZero(b.maxToolCalls) && AtLeastZero(b.maxRetries)
    && AtLeastZero(b.maxNetworkRequests) && AtLeastZero(b.maxFileWrites)
  }

  predicate ValidGoal(g: Goal) {
    ValidBudget(g.budget) && forall c :: c in g.criteria ==> ValidCriterion(c)
  }

  predicate ValidStep(s: ActionStep) {
    && (forall c :: c in s.preconditions ==> ValidCondition(c))
    && (forall c :: c in s.postconditions ==> ValidCondition(c))
    && (forall c :: c in s.invariants ==> ValidCondition(c))
  }

  predicate ValidPlan(p: Plan) {
    ValidGoal(p.goal) && (forall s :: s in p.steps ==> ValidStep(s)) && (p.budget.Some? ==> ValidBudget(p.budget.value))
  }

  // ---------- goal transitions ----------

  /** The statuses that a goal may go to from each status. */
  function AllowedAfter(s: GoalStatus): set<GoalStatus> {
    match s
    case GoalCreated => {GoalClarifying, GoalPlanning, GoalCancelled, GoalArchived}
    case GoalClarifying => {GoalPlanning, GoalBlocked, GoalCancelled}
    case GoalPlanning => {GoalAwaitingApproval, GoalRunning, GoalBlocked, GoalCancelled}
    case GoalAwaitingApproval => {GoalRunning, GoalBlocked, GoalCancelled}
    case GoalRunning => {GoalPaused, GoalBlocked, GoalFailed, GoalPartiallyDone, GoalSucceeded, GoalCancelled}
    case GoalPaused => {GoalRunning, GoalBlocked, GoalCancelled}
    case GoalBlocked => {GoalPlanning, GoalRunning, GoalFailed, GoalCancelled, GoalArchived}
    case GoalFailed => {GoalPlanning, GoalArchived}
    case GoalPartiallyDone => {GoalPlanning, GoalRunning, GoalFailed, GoalSucceeded, GoalArchived}
    case GoalSucceeded => {GoalArchived}
    case GoalCancelled => {GoalArchived}
    case GoalArchived => {}
  }

  // ---------- the values of enum members ----------

  function GoalStatusName(s: GoalStatus): string {
    match s
    case GoalCreated => "created"
    case GoalClarifying => "clarifying"
    case GoalPlanning => "planning"
    case GoalAwaitingApproval => "awaiting_approval"
    case GoalRunning => "running"
    case GoalPaused => "paused"
    case GoalBlocked => "blocked"
    case GoalFailed => "failed"
    case GoalPartiallyDone => "partially_done"
    case GoalSucceeded => "succeeded"
    case GoalCancelled => "cancelled"
    case GoalArchived => "archived"
  }

  function StepStatusName(s: StepStatus): string {
    match s
    case Pending => "pending"
    case DryRunOk => "dry_run_ok"
    case Executed => "executed"
    case Verified => "verified"
    case RolledBack => "rolled_back"
    case StepFailed => "failed"
    case Blocked => "blocked"
  }

  function RiskName(r: Risk): string {
    match r case Low => "low" case Medium => "medium" case High => "high" case Critical => "critical"
  }

  function ReversibilityName(r: Reversibility): string {
    match r case Reversible => "reversible" case Compensatable => "compensatable" case Irreversible => "irreversible"
  }

  function CompensationName(c: Compensation): string {
    match c case Undo => "undo" case Compensate => "compensate" case Manual => "manual" case NoCompensation => "none"
  }

  function TrustName(t: Trust): string {
    match t
    case TrustVerified => "verified"
    case TrustObserved => "observed"
    case UserProvided => "user_provided"
    case ToolReported => "tool_reported"
    case ModelInferred => "model_inferred"
    case UntrustedExternal => "untrusted_external"
  }

  function PermissionName(p: Permission): string {
    match p
    case ReadMemory => "read_memory"
    case WriteMemory => "write_memory"
    case ReadFiles => "read_files"
    case WriteFiles => "write_files"
    case Network => "network"
    case SendMessage => "send_message"
    case ExecuteCode => "execute_code"
    case Delete => "delete"
    case Financial => "financial"
    case SystemConfig => "system_config"
  }

  /** The member of an enum with this value, looked up in the enum's order. */
  function MemberOf<E>(members: seq<E>, name: E -> string, text: string): Option<E> {
    if members == [] then None
    else if name(members[0]) == text then Some(members[0])
    else MemberOf(members[1..], name, text)
  }

  const GOAL_STATUSES: seq<GoalStatus> :=
    [GoalCreated, GoalClarifying, GoalPlanning, GoalAwaitingApproval, GoalRunning, GoalPaused,
     GoalBlocked, GoalFailed, GoalPartiallyDone, GoalSucceeded, GoalCancelled, GoalArchived]

  const STEP_STATUSES: seq<StepStatus> := [Pending, DryRunOk, Executed, Verified, RolledBack, StepFailed, Blocked]

  const REVERSIBILITIES: seq<Reversibility> := [Reversible, Compensatable, Irreversible]

  const COMPENSATIONS: seq<Compensation> := [Undo, Compensate, Manual, NoCompensation]

  const TRUSTS: seq<Trust> :=
    [TrustVerified, TrustObserved, UserProvided, ToolReported, ModelInferred, UntrustedExternal]

  /** No two members share a value. */
  ghost predicate Injective<E(!new)>(name: E -> string) {
    forall a, b :: name(a) == name(b) ==> a == b
  }

  lemma {:induction false} MemberOfName<E(!new)>(members: seq<E>, name: E -> string, e: E)
    requires Injective(name) && e in members
    ensures MemberOf(members, name, name(e)) == Some(e)
  {
    if members[0] != e {
      MemberOfName(members[1..], name, e);
    }
  }

  lemma StatusNamesAreDistinct()
    ensures Injective(GoalStatusName) && Injective(StepStatusName)
  {
  }

  lemma OtherNamesAreDistinct()
    ensures Injective(ReversibilityName) && Injective(CompensationName) && Injective(TrustName)
  {
  }

  lemma PermissionAndRiskNames(p: Permission, r: Risk)
    ensures PermissionOf(PermissionName(p)) == Some(p) && RiskOf(RiskName(r)) == Some(r)
  {
  }
}
