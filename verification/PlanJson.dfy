/** Plans as JSON: writing a plan down and reading it back. */
module PlanJson {
  import opened Tasks
  import opened PolicyDecisions
  import opened Plans

  /** The keys of the objects this format writes. */
  datatype Key =
    | KDescription | KSuccessCriteria | KCriteria | KConstraints | KStopConditions | KPriority | KGoalId | KOwner
    | KDeadline | KBudget | KStatus
    | KMaxTokens | KMaxCostUsd | KMaxRuntimeSeconds | KMaxToolCalls | KMaxRetries | KMaxNetworkRequests
    | KMaxFileWrites | KMaxRiskLevel
    | KKey | KOp | KValue | KSource | KRequired | KVariable | KOperator | KTrustLevel
    | KToolName | KArguments | KReason | KRisk | KReversibility | KCompensationStrategy | KRollbackReliability
    | KRequiredPermissions | KIdempotencyKey | KPreconditions | KPostconditions | KInvariants | KStepId
    | KGoal | KSteps | KPlanId

  /** A JSON tree. Objects of the format have known keys; dictionaries that a plan carries have
      any, in order. */
  datatype Json =
    | JNull
    | JBool(flag: bool)
    | JInt(number: int)
    | JFloat(decimal: real)
    | JStr(text: string)
    | JList(items: seq<Json>)
    | JDict(entries: seq<JItem>)
    | JObject(fields: map<Key, Json>)

  datatype JItem = JItem(key: string, value: Json)

  datatype Result<+T> = Ok(value: T) | Err {
    predicate IsFailure() { Err? }
    function PropagateFailure<U>(): Result<U>
      requires IsFailure()
    {
      Err
    }
    function Extract(): T
      requires !IsFailure()
    {
      value
    }
  }

  // ---------- lists ----------

  function Each<A, B>(f: A -> B, s: seq<A>): seq<B> {
    if s == [] then [] else [f(s[0])] + Each(f, s[1..])
  }

  /** All of them, or the first failure. */
  function All<A, B>(f: A -> Result<B>, s: seq<A>): Result<seq<B>> {
    if s == [] then Ok([])
    else
      var first :- f(s[0]);
      var rest :- All(f, s[1..]);
      Ok([first] + rest)
  }

  lemma {:induction false} AllBack<A, B, C>(f: A -> Result<B>, g: B -> Result<C>, h: A -> C, s: seq<A>)
    requires forall a :: a in s && f(a).Ok? ==> g(f(a).value) == Ok(h(a))
    ensures All(f, s).Ok? ==> All(g, All(f, s).value) == Ok(Each(h, s))
  {
    if s != [] {
      AllBack(f, g, h, s[1..]);
    }
  }

  lemma {:induction false} AllAgain<A, B>(f: A -> Result<B>, h: A -> A, s: seq<A>)
    requires forall a :: a in s ==> f(h(a)) == f(a)
    ensures All(f, Each(h, s)) == All(f, s)
  {
    if s != [] {
      AllAgain(f, h, s[1..]);
      assert Each(h, s)[1..] == Each(h, s[1..]);
    }
  }

  lemma {:induction false} AllOkIff<A, B>(f: A -> Result<B>, good: A -> bool, s: seq<A>)
    requires forall a :: a in s ==> (f(a).Ok? <==> good(a))
    ensures All(f, s).Ok? <==> forall a :: a in s ==> good(a)
  {
    if s != [] {
      AllOkIff(f, good, s[1..]);
      assert s == [s[0]] + s[1..];
    }
  }

  // ---------- values ----------

  /** What the encoder writes; it raises on values that JSON cannot express. */
  function ToJson(v: Value): Result<Json>
    decreases v
  {
    match v
    case Null => Ok(JNull)
    case Bool(b) => Ok(JBool(b))
    case Int(i) => Ok(JInt(i))
    case Float(f) => Ok(JFloat(f))
    case Str(s) => Ok(JStr(s))
    case List(items) =>
      var js :- ToJsonItems(items);
      Ok(JList(js))
    case Tuple(items) =>
      var js :- ToJsonItems(items);
      Ok(JList(js))
    case Dict(entries) =>
      var js :- ToJsonEntries(entries);
      Ok(JDict(js))
    case Opaque => Err
  }

  function ToJsonItems(items: seq<Value>): (r: Result<seq<Json>>)
    decreases items
  {
    if items == [] then Ok([])
    else
      var first :- ToJson(items[0]);
      var rest :- ToJsonItems(items[1..]);
      Ok([first] + rest)
  }

  function ToJsonEntries(entries: seq<Item>): (r: Result<seq<JItem>>)
    decreases entries
  {
    if entries == [] then Ok([])
    else
      var first :- ToJson(entries[0].value);
      var rest :- ToJsonEntries(entries[1..]);
      Ok([JItem(entries[0].key, first)] + rest)
  }

  /** What the decoder makes of a tree: every sequence becomes a list. */
  function FromJson(j: Json): Value
    decreases j
  {
    match j
    case JNull => Null
    case JBool(b) => Bool(b)
    case JInt(i) => Int(i)
    case JFloat(f) => Float(f)
    case JStr(s) => Str(s)
    case JList(items) => List(FromJsonItems(items))
    case JDict(entries) => Dict(FromJsonEntries(entries))
    case JObject(_) => Opaque
  }

  function FromJsonItems(items: seq<Json>): seq<Value>
    decreases items
  {
    if items == [] then [] else [FromJson(items[0])] + FromJsonItems(items[1..])
  }

  function FromJsonEntries(entries: seq<JItem>): seq<Item>
    decreases entries
  {
    if entries == [] then [] else [Item(entries[0].key, FromJson(entries[0].value))] + FromJsonEntries(entries[1..])
  }

  /** The value with lists in place of tuples. */
  function Listed(v: Value): Value
    decreases v
  {
    match v
    case List(items) => List(ListedItems(items))
    case Tuple(items) => List(ListedItems(items))
    case Dict(entries) => Dict(ListedEntries(entries))
    case _ => v
  }

  function ListedItems(items: seq<Value>): seq<Value>
    decreases items
  {
    if items == [] then [] else [Listed(items[0])] + ListedItems(items[1..])
  }

  function ListedEntries(entries: seq<Item>): seq<Item>
    decreases entries
  {
    if entries == [] then [] else [Item(entries[0].key, Listed(entries[0].value))] + ListedEntries(entries[1..])
  }

  /** Nothing opaque anywhere inside. */
  predicate Expressible(v: Value)
    decreases v
  {
    match v
    case Opaque => false
    case List(items) => forall i :: 0 <= i < |items| ==> Expressible(items[i])
    case Tuple(items) => forall i :: 0 <= i < |items| ==> Expressible(items[i])
    case Dict(entries) => forall i :: 0 <= i < |entries| ==> Expressible(entries[i].value)
    case _ => true
  }

  predicate ExpressibleEntries(entries: seq<Item>) {
    forall i :: 0 <= i < |entries| ==> Expressible(entries[i].value)
  }

  lemma {:induction false} ValueBack(v: Value)
    ensures ToJson(v).Ok? <==> Expressible(v)
    ensures ToJson(v).Ok? ==> FromJson(ToJson(v).value) == Listed(v)
    ensures ToJson(Listed(v)) == ToJson(v)
    decreases v
  {
    hide ToJsonItems, FromJsonItems, ListedItems, ToJsonEntries, FromJsonEntries, ListedEntries;
    match v
    case List(items) => ItemsBack(items);
    case Tuple(items) => ItemsBack(items);
    case Dict(entries) => EntriesBack(entries);
    case _ =>
  }

  lemma {:induction false} ItemsBack(items: seq<Value>)
    ensures ToJsonItems(items).Ok? <==> forall i :: 0 <= i < |items| ==> Expressible(items[i])
    ensures ToJsonItems(items).Ok? ==> FromJsonItems(ToJsonItems(items).value) == ListedItems(items)
    ensures ToJsonItems(ListedItems(items)) == ToJsonItems(items)
    decreases items
  {
    if items != [] {
      ValueBack(items[0]);
      ItemsBack(items[1..]);
      assert ListedItems(items)[1..] == ListedItems(items[1..]);
      if forall i :: 0 <= i < |items[1..]| ==> Expressible(items[1..][i]) {
        assert forall i :: 0 < i < |items| ==> items[i] == items[1..][i - 1];
      }
    }
  }

  lemma {:induction false} EntriesBack(entries: seq<Item>)
    ensures ToJsonEntries(entries).Ok? <==> ExpressibleEntries(entries)
    ensures ToJsonEntries(entries).Ok? ==> FromJsonEntries(ToJsonEntries(entries).value) == ListedEntries(entries)
    ensures ToJsonEntries(ListedEntries(entries)) == ToJsonEntries(entries)
    decreases entries
  {
    if entries != [] {
      ValueBack(entries[0].value);
      EntriesBack(entries[1..]);
      assert ListedEntries(entries)[1..] == ListedEntries(entries[1..]);
      if ExpressibleEntries(entries[1..]) {
        assert forall i :: 0 < i < |entries| ==> entries[i] == entries[1..][i - 1];
      }
    }
  }

  // ---------- reading fields ----------

  function Get(j: Json, key: Key): Option<Json> {
    if j.JObject? && key in j.fields then Some(j.fields[key]) else None
  }

  /** A field that must be there, or the default where there is one. */
  function TextAt(j: Json, key: Key, default: Option<string>): Result<string> {
    match Get(j, key)
    case Some(JStr(s)) => Ok(s)
    case None => if default.Some? then Ok(default.value) else Err
    case _ => Err
  }

  function OptionalText(j: Json, key: Key): Result<Option<string>> {
    match Get(j, key)
    case Some(JStr(s)) => Ok(Some(s))
    case Some(JNull) => Ok(None)
    case None => Ok(None)
    case _ => Err
  }

  function OptionalInt(j: Json, key: Key): Result<Option<int>> {
    match Get(j, key)
    case Some(JInt(i)) => Ok(Some(i))
    case Some(JNull) => Ok(None)
    case None => Ok(None)
    case _ => Err
  }

  function OptionalReal(j: Json, key: Key): Result<Option<real>> {
    match Get(j, key)
    case Some(JFloat(f)) => Ok(Some(f))
    case Some(JNull) => Ok(None)
    case None => Ok(None)
    case _ => Err
  }

  function ItemsAt(j: Json, key: Key): Result<seq<Json>> {
    match Get(j, key)
    case Some(JList(items)) => Ok(items)
    case None => Ok([])
    case _ => Err
  }

  function TextOf(j: Json): Result<string> {
    match j case JStr(s) => Ok(s) case _ => Err
  }

  function TextsAt(j: Json, key: Key): Result<seq<string>> {
    var items :- ItemsAt(j, key);
    All(TextOf, items)
  }

  function Known<E>(member: Option<E>): Result<E> {
    match member case Some(e) => Ok(e) case None => Err
  }

  function OrNull<T>(x: Option<T>, write: T -> Json): Json {
    match x case Some(v) => write(v) case None => JNull
  }

  function JText(s: string): Json { JStr(s) }

  function JNumber(i: int): Json { JInt(i) }

  function JDecimal(r: real): Json { JFloat(r) }

  function JTexts(s: seq<string>): Json { JList(Each(JText, s)) }

  lemma {:induction false} TextsBack(s: seq<string>)
    ensures All(TextOf, Each(JText, s)) == Ok(s)
  {
    if s != [] {
      TextsBack(s[1..]);
      assert Each(JText, s)[1..] == Each(JText, s[1..]) && s == [s[0]] + s[1..];
    }
  }

  // ---------- budgets ----------

  function SerializeBudget(b: Budget): Json {
    JObject(map[
      KMaxTokens := OrNull(b.maxTokens, JNumber),
      KMaxCostUsd := OrNull(b.maxCostUsd, JDecimal),
      KMaxRuntimeSeconds := OrNull(b.maxRuntimeSeconds, JDecimal),
      KMaxToolCalls := OrNull(b.maxToolCalls, JNumber),
      KMaxRetries := OrNull(b.maxRetries, JNumber),
      KMaxNetworkRequests := OrNull(b.maxNetworkRequests, JNumber),
      KMaxFileWrites := OrNull(b.maxFileWrites, JNumber),
      KMaxRiskLevel := JStr(RiskName(b.maxRiskLevel))])
  }

  function DeserializeBudget(j: Json): Result<Budget> {
    var tokens :- OptionalInt(j, KMaxTokens);
    var cost :- OptionalReal(j, KMaxCostUsd);
    var seconds :- OptionalReal(j, KMaxRuntimeSeconds);
    var calls :- OptionalInt(j, KMaxToolCalls);
    var retries :- OptionalInt(j, KMaxRetries);
    var requests :- OptionalInt(j, KMaxNetworkRequests);
    var writes :- OptionalInt(j, KMaxFileWrites);
    var riskName :- TextAt(j, KMaxRiskLevel, Some("critical"));
    var risk :- Known(RiskOf(riskName));
    var b := Budget(tokens, cost, seconds, calls, retries, requests, writes, risk);
    if ValidBudget(b) then Ok(b) else Err
  }

  lemma IntBack(j: Json, key: Key, x: Option<int>)
    requires Get(j, key) == Some(OrNull(x, JNumber))
    ensures OptionalInt(j, key) == Ok(x)
  {
  }

  lemma RealBack(j: Json, key: Key, x: Option<real>)
    requires Get(j, key) == Some(OrNull(x, JDecimal))
    ensures OptionalReal(j, key) == Ok(x)
  {
  }

  lemma TextBack(j: Json, key: Key, x: Option<string>)
    requires Get(j, key) == Some(OrNull(x, JText))
    ensures OptionalText(j, key) == Ok(x)
  {
  }

  lemma BudgetObject(b: Budget, j: Json)
    requires j == SerializeBudget(b)
    ensures Get(j, KMaxTokens) == Some(OrNull(b.maxTokens, JNumber)) && Get(j, KMaxCostUsd) == Some(OrNull(b.maxCostUsd, JDecimal))
    ensures Get(j, KMaxRuntimeSeconds) == Some(OrNull(b.maxRuntimeSeconds, JDecimal))
    ensures Get(j, KMaxToolCalls) == Some(OrNull(b.maxToolCalls, JNumber)) && Get(j, KMaxRetries) == Some(OrNull(b.maxRetries, JNumber))
    ensures Get(j, KMaxNetworkRequests) == Some(OrNull(b.maxNetworkRequests, JNumber))
    ensures Get(j, KMaxFileWrites) == Some(OrNull(b.maxFileWrites, JNumber))
    ensures Get(j, KMaxRiskLevel) == Some(JStr(RiskName(b.maxRiskLevel)))
  {
    hide OrNull, RiskName;
  }

  lemma BudgetBack(b: Budget)
    requires ValidBudget(b)
    ensures DeserializeBudget(SerializeBudget(b)) == Ok(b)
  {
    var j := SerializeBudget(b);
    BudgetObject(b, j);
    PermissionAndRiskNames(ReadMemory, b.maxRiskLevel);
    hide SerializeBudget, OptionalInt, OptionalReal, RiskOf, RiskName, ValidBudget, Get, OrNull;
    IntBack(j, KMaxTokens, b.maxTokens);
    RealBack(j, KMaxCostUsd, b.maxCostUsd);
    RealBack(j, KMaxRuntimeSeconds, b.maxRuntimeSeconds);
    IntBack(j, KMaxToolCalls, b.maxToolCalls);
    IntBack(j, KMaxRetries, b.maxRetries);
    IntBack(j, KMaxNetworkRequests, b.maxNetworkRequests);
    IntBack(j, KMaxFileWrites, b.maxFileWrites);
  }

  // ---------- criteria and conditions ----------

  function SerializeCriterion(c: Criterion): Result<Json> {
    var value :- ToJson(c.value);
    Ok(JObject(map[
      KKey := JStr(c.key),
      KOp := JStr(c.op),
      KValue := value,
      KSource := OrNull(c.source, JText),
      KRequired := JBool(c.required)]))
  }

  function DeserializeCriterion(j: Json): Result<Criterion> {
    var key :- TextAt(j, KKey, None);
    var op :- TextAt(j, KOp, None);
    var source :- OptionalText(j, KSource);
    var required :- (match Get(j, KRequired) case Some(JBool(b)) => Ok(b) case None => Ok(true) case _ => Err);
    var c := Criterion(key, op, ValueAt(j), source, required);
    if ValidCriterion(c) then Ok(c) else Err
  }

  function ValueAt(j: Json): Value {
    match Get(j, KValue) case Some(v) => FromJson(v) case None => Null
  }

  function ListedCriterion(c: Criterion): Criterion { c.(value := Listed(c.value)) }

  lemma CriterionBack(c: Criterion)
    requires ValidCriterion(c)
    ensures SerializeCriterion(c).Ok? <==> Expressible(c.value)
    ensures SerializeCriterion(c).Ok? ==> DeserializeCriterion(SerializeCriterion(c).value) == Ok(ListedCriterion(c))
    ensures SerializeCriterion(ListedCriterion(c)) == SerializeCriterion(c)
  {
    ValueBack(c.value);
  }

  /** A value of None is not written, and neither is a missing trust level. */
  function SerializeCondition(c: StateCondition): Result<Json> {
    var value :- ToJson(c.value);
    Ok(JObject(map[KVariable := JStr(c.variable), KOperator := JStr(c.operator)]
               + (if c.value == Null then map[] else map[KValue := value])
               + (if c.trust.None? then map[] else map[KTrustLevel := JStr(TrustName(c.trust.value))])))
  }

  function DeserializeCondition(j: Json): Result<StateCondition> {
    var variable :- TextAt(j, KVariable, None);
    var operator :- TextAt(j, KOperator, Some("exists"));
    var trust :- (match Get(j, KTrustLevel)
                  case None => Ok(None)
                  case Some(JNull) => Ok(None)
                  case Some(JStr(name)) => if name == "" then Ok(None) else TrustOf(name)
                  case _ => Err);
    var c := StateCondition(variable, operator, ValueAt(j), trust);
    if ValidCondition(c) then Ok(c) else Err
  }

  function TrustOf(name: string): Result<Option<Trust>> {
    var trust :- Known(MemberOf(TRUSTS, TrustName, name));
    Ok(Some(trust))
  }

  function ListedCondition(c: StateCondition): StateCondition { c.(value := Listed(c.value)) }

  lemma TrustBack(t: Trust)
    ensures TrustOf(TrustName(t)) == Ok(Some(t)) && TrustName(t) != ""
  {
    OtherNamesAreDistinct();
    MemberOfName(TRUSTS, TrustName, t);
  }

  lemma ConditionBack(c: StateCondition)
    requires ValidCondition(c)
    ensures SerializeCondition(c).Ok? <==> Expressible(c.value)
    ensures SerializeCondition(c).Ok? ==> DeserializeCondition(SerializeCondition(c).value) == Ok(ListedCondition(c))
    ensures SerializeCondition(ListedCondition(c)) == SerializeCondition(c)
  {
    ValueBack(c.value);
    if c.trust.Some? {
      TrustBack(c.trust.value);
    }
  }

  predicate ExpressibleConditions(cs: seq<StateCondition>) {
    forall c :: c in cs ==> Expressible(c.value)
  }

  function SerializeConditions(cs: seq<StateCondition>): Result<Json> {
    var items :- All(SerializeCondition, cs);
    Ok(JList(items))
  }

  function ConditionsAt(j: Json, key: Key): Result<seq<StateCondition>> {
    var items :- ItemsAt(j, key);
    All(DeserializeCondition, items)
  }

  predicate ReadsAs(j: Json, cs: seq<StateCondition>) {
    j.JList? && All(DeserializeCondition, j.items) == Ok(cs)
  }

  lemma ConditionsBack(cs: seq<StateCondition>)
    requires forall c :: c in cs ==> ValidCondition(c)
    ensures SerializeConditions(cs).Ok? <==> ExpressibleConditions(cs)
    ensures SerializeConditions(cs).Ok? ==> ReadsAs(SerializeConditions(cs).value, Each(ListedCondition, cs))
    ensures SerializeConditions(Each(ListedCondition, cs)) == SerializeConditions(cs)
  {
    forall c | c in cs
      ensures SerializeCondition(c).Ok? <==> Expressible(c.value)
      ensures SerializeCondition(c).Ok? ==> DeserializeCondition(SerializeCondition(c).value) == Ok(ListedCondition(c))
      ensures SerializeCondition(ListedCondition(c)) == SerializeCondition(c)
    {
      ConditionBack(c);
    }
    AllBack(SerializeCondition, DeserializeCondition, ListedCondition, cs);
    AllAgain(SerializeCondition, ListedCondition, cs);
    AllOkIff(SerializeCondition, (c: StateCondition) => Expressible(c.value), cs);
  }

  // ---------- goals ----------

  function SerializeGoal(g: Goal): Result<Json> {
    var criteria :- All(SerializeCriterion, g.criteria);
    Ok(JObject(map[
      KDescription := JStr(g.description),
      KSuccessCriteria := JTexts(g.successCriteria),
      KCriteria := JList(criteria),
      KConstraints := JTexts(g.constraints),
      KStopConditions := JTexts(g.stopConditions),
      KPriority := JInt(g.priority),
      KGoalId := JStr(g.goalId),
      KOwner := OrNull(g.owner, JText),
      KDeadline := OrNull(g.deadline, JDecimal),
      KBudget := SerializeBudget(g.budget),
      KStatus := JStr(GoalStatusName(g.status))]))
  }

  function DeserializeGoal(j: Json): Result<Goal> {
    var description :- TextAt(j, KDescription, None);
    var successCriteria :- TextsAt(j, KSuccessCriteria);
    var criteriaItems :- ItemsAt(j, KCriteria);
    var criteria :- All(DeserializeCriterion, criteriaItems);
    var constraints :- TextsAt(j, KConstraints);
    var stopConditions :- TextsAt(j, KStopConditions);
    var priority :- (match Get(j, KPriority) case Some(JInt(i)) => Ok(i) case None => Ok(5) case _ => Err);
    var goalId :- TextAt(j, KGoalId, Some(""));
    var owner :- OptionalText(j, KOwner);
    var deadline :- OptionalReal(j, KDeadline);
    var budget :- DeserializeBudget(match Get(j, KBudget) case Some(b) => b case None => JObject(map[]));
    var statusName :- TextAt(j, KStatus, None);
    var status :- Known(MemberOf(GOAL_STATUSES, GoalStatusName, statusName));
    Ok(Goal(description, successCriteria, criteria, constraints, stopConditions, priority, goalId, owner, deadline, budget, status))
  }

  predicate ExpressibleGoal(g: Goal) {
    forall c :: c in g.criteria ==> Expressible(c.value)
  }

  function ListedGoal(g: Goal): Goal { g.(criteria := Each(ListedCriterion, g.criteria)) }

  lemma CriteriaBack(cs: seq<Criterion>)
    requires forall c :: c in cs ==> ValidCriterion(c)
    ensures All(SerializeCriterion, cs).Ok? <==> forall c :: c in cs ==> Expressible(c.value)
    ensures All(SerializeCriterion, cs).Ok? ==>
      All(DeserializeCriterion, All(SerializeCriterion, cs).value) == Ok(Each(ListedCriterion, cs))
    ensures All(SerializeCriterion, Each(ListedCriterion, cs)) == All(SerializeCriterion, cs)
  {
    forall c | c in cs
      ensures SerializeCriterion(c).Ok? <==> Expressible(c.value)
      ensures SerializeCriterion(c).Ok? ==> DeserializeCriterion(SerializeCriterion(c).value) == Ok(ListedCriterion(c))
      ensures SerializeCriterion(ListedCriterion(c)) == SerializeCriterion(c)
    {
      CriterionBack(c);
    }
    AllBack(SerializeCriterion, DeserializeCriterion, ListedCriterion, cs);
    AllAgain(SerializeCriterion, ListedCriterion, cs);
    AllOkIff(SerializeCriterion, (c: Criterion) => Expressible(c.value), cs);
  }

  lemma GoalStatusBack(s: GoalStatus)
    ensures Known(MemberOf(GOAL_STATUSES, GoalStatusName, GoalStatusName(s))) == Ok(s)
  {
    StatusNamesAreDistinct();
    MemberOfName(GOAL_STATUSES, GoalStatusName, s);
  }

  lemma GoalObject(g: Goal, j: Json)
    requires SerializeGoal(g) == Ok(j)
    ensures Get(j, KDescription) == Some(JStr(g.description)) && Get(j, KGoalId) == Some(JStr(g.goalId))
    ensures Get(j, KStatus) == Some(JStr(GoalStatusName(g.status))) && Get(j, KPriority) == Some(JInt(g.priority))
    ensures Get(j, KSuccessCriteria) == Some(JTexts(g.successCriteria))
    ensures Get(j, KConstraints) == Some(JTexts(g.constraints)) && Get(j, KStopConditions) == Some(JTexts(g.stopConditions))
    ensures Get(j, KOwner) == Some(OrNull(g.owner, JText)) && Get(j, KDeadline) == Some(OrNull(g.deadline, JDecimal))
    ensures Get(j, KBudget) == Some(SerializeBudget(g.budget))
    ensures All(SerializeCriterion, g.criteria).Ok? && Get(j, KCriteria) == Some(JList(All(SerializeCriterion, g.criteria).value))
  {
    hide SerializeBudget, SerializeCriterion, All, JTexts, OrNull, GoalStatusName;
  }

  lemma TextsReadBack(j: Json, key: Key, s: seq<string>)
    requires Get(j, key) == Some(JTexts(s))
    ensures TextsAt(j, key) == Ok(s)
  {
    TextsBack(s);
  }

  /** The parts of a goal's object, read one by one. */
  lemma GoalFieldsBack(g: Goal, j: Json)
    requires SerializeGoal(g) == Ok(j)
    ensures TextAt(j, KDescription, None) == Ok(g.description) && TextAt(j, KGoalId, Some("")) == Ok(g.goalId)
    ensures TextAt(j, KStatus, None) == Ok(GoalStatusName(g.status)) && Get(j, KPriority) == Some(JInt(g.priority))
    ensures TextsAt(j, KSuccessCriteria) == Ok(g.successCriteria)
    ensures TextsAt(j, KConstraints) == Ok(g.constraints) && TextsAt(j, KStopConditions) == Ok(g.stopConditions)
    ensures OptionalText(j, KOwner) == Ok(g.owner) && OptionalReal(j, KDeadline) == Ok(g.deadline)
    ensures Get(j, KBudget) == Some(SerializeBudget(g.budget))
    ensures All(SerializeCriterion, g.criteria).Ok? && ItemsAt(j, KCriteria) == Ok(All(SerializeCriterion, g.criteria).value)
  {
    GoalObject(g, j);
    TextsReadBack(j, KSuccessCriteria, g.successCriteria);
    TextsReadBack(j, KConstraints, g.constraints);
    TextsReadBack(j, KStopConditions, g.stopConditions);
    TextBack(j, KOwner, g.owner);
    RealBack(j, KDeadline, g.deadline);
    hide SerializeBudget, SerializeCriterion, SerializeGoal, All, JTexts, Get, OptionalText, OptionalReal, OrNull, TextsAt, GoalStatusName;
  }

  lemma GoalBack(g: Goal)
    requires ValidGoal(g)
    ensures SerializeGoal(g).Ok? <==> ExpressibleGoal(g)
    ensures SerializeGoal(g).Ok? ==> DeserializeGoal(SerializeGoal(g).value) == Ok(ListedGoal(g))
    ensures SerializeGoal(ListedGoal(g)) == SerializeGoal(g)
  {
    CriteriaBack(g.criteria);
    if SerializeGoal(g).Ok? {
      GoalIsReadBack(g, SerializeGoal(g).value);
    }
  }

  lemma GoalIsReadBack(g: Goal, j: Json)
    requires ValidGoal(g) && SerializeGoal(g) == Ok(j)
    ensures DeserializeGoal(j) == Ok(ListedGoal(g))
  {
    GoalFieldsBack(g, j);
    CriteriaBack(g.criteria);
    BudgetBack(g.budget);
    GoalStatusBack(g.status);
    hide TextAt, TextsAt, OptionalText, OptionalReal, ItemsAt, Get, All, Each, MemberOf, Known, SerializeBudget, DeserializeBudget, GoalStatusName;
  }

  // ---------- steps ----------

  function PermissionOfJson(j: Json): Result<Permission> {
    var name :- TextOf(j);
    Known(PermissionOf(name))
  }

  function PermissionJson(p: Permission): Json { JStr(PermissionName(p)) }

  lemma {:induction false} PermissionsBack(ps: seq<Permission>)
    ensures All(PermissionOfJson, Each(PermissionJson, ps)) == Ok(ps)
  {
    if ps != [] {
      PermissionsBack(ps[1..]);
      PermissionAndRiskNames(ps[0], Low);
      assert Each(PermissionJson, ps)[1..] == Each(PermissionJson, ps[1..]) && ps == [ps[0]] + ps[1..];
    }
  }

  function SerializeStep(s: ActionStep): Result<Json> {
    var arguments :- ToJsonEntries(s.arguments);
    var preconditions :- SerializeConditions(s.preconditions);
    var postconditions :- SerializeConditions(s.postconditions);
    var invariants :- SerializeConditions(s.invariants);
    Ok(JObject(map[
      KToolName := JStr(s.toolName),
      KArguments := JDict(arguments),
      KReason := JStr(s.reason),
      KStatus := JStr(StepStatusName(s.status)),
      KRisk := JStr(RiskName(s.risk)),
      KReversibility := JStr(ReversibilityName(s.reversibility)),
      KCompensationStrategy := JStr(CompensationName(s.compensation)),
      KRollbackReliability := JFloat(s.rollbackReliability),
      KRequiredPermissions := JList(Each(PermissionJson, s.requiredPermissions)),
      KIdempotencyKey := OrNull(s.idempotencyKey, JText),
      KPreconditions := preconditions,
      KPostconditions := postconditions,
      KInvariants := invariants,
      KStepId := JStr(s.stepId)]))
  }

  function ArgumentsAt(j: Json): Result<seq<Item>> {
    match Get(j, KArguments)
    case Some(JDict(entries)) => Ok(FromJsonEntries(entries))
    case None => Ok([])
    case _ => Err
  }

  function StepStatusAt(j: Json): Result<StepStatus> {
    var name :- TextAt(j, KStatus, Some("pending"));
    Known(MemberOf(STEP_STATUSES, StepStatusName, name))
  }

  function RiskAt(j: Json): Result<Risk> {
    var name :- TextAt(j, KRisk, Some("low"));
    Known(RiskOf(name))
  }

  function ReversibilityAt(j: Json): Result<Reversibility> {
    var name :- TextAt(j, KReversibility, Some("irreversible"));
    Known(MemberOf(REVERSIBILITIES, ReversibilityName, name))
  }

  function CompensationAt(j: Json): Result<Compensation> {
    var name :- TextAt(j, KCompensationStrategy, Some("none"));
    Known(MemberOf(COMPENSATIONS, CompensationName, name))
  }

  function ReliabilityAt(j: Json): Result<real> {
    match Get(j, KRollbackReliability)
    case Some(JFloat(f)) => Ok(f)
    case Some(JInt(i)) => Ok(i as real)
    case None => Ok(0.0)
    case _ => Err
  }

  function PermissionsAt(j: Json): Result<seq<Permission>> {
    var items :- ItemsAt(j, KRequiredPermissions);
    All(PermissionOfJson, items)
  }

  /** The constructor's arguments; everything else starts with its default. */
  function DeserializeCall(j: Json): Result<ActionStep> {
    var toolName :- TextAt(j, KToolName, None);
    var arguments :- ArgumentsAt(j);
    var reason :- TextAt(j, KReason, Some(""));
    var idempotencyKey :- OptionalText(j, KIdempotencyKey);
    var stepId :- TextAt(j, KStepId, Some(""));
    Ok(ActionStep(toolName, arguments, reason, Pending, Low, Irreversible, NoCompensation, 0.0, [],
                  [], None, idempotencyKey, [], [], [], stepId))
  }

  function DeserializeMetadata(call: ActionStep, j: Json): Result<ActionStep> {
    var status :- StepStatusAt(j);
    var risk :- RiskAt(j);
    var reversibility :- ReversibilityAt(j);
    var compensation :- CompensationAt(j);
    var reliability :- ReliabilityAt(j);
    var permissions :- PermissionsAt(j);
    Ok(call.(status := status, risk := risk, reversibility := reversibility, compensation := compensation,
             rollbackReliability := reliability, requiredPermissions := permissions))
  }

  /** Predictions and the counterfactual report are not part of the format. */
  function DeserializeStep(j: Json): Result<ActionStep> {
    var call :- DeserializeCall(j);
    var step :- DeserializeMetadata(call, j);
    var preconditions :- ConditionsAt(j, KPreconditions);
    var postconditions :- ConditionsAt(j, KPostconditions);
    var invariants :- ConditionsAt(j, KInvariants);
    Ok(step.(preconditions := preconditions, postconditions := postconditions, invariants := invariants))
  }

  predicate ExpressibleStep(s: ActionStep) {
    && ExpressibleEntries(s.arguments)
    && ExpressibleConditions(s.preconditions) && ExpressibleConditions(s.postconditions) && ExpressibleConditions(s.invariants)
  }

  function ListedStep(s: ActionStep): ActionStep {
    s.(arguments := ListedEntries(s.arguments), predictions := [], counterfactualReport := None,
       preconditions := Each(ListedCondition, s.preconditions),
       postconditions := Each(ListedCondition, s.postconditions),
       invariants := Each(ListedCondition, s.invariants))
  }

  lemma StepObject(s: ActionStep, j: Json)
    requires SerializeStep(s) == Ok(j)
    ensures Get(j, KToolName) == Some(JStr(s.toolName)) && Get(j, KReason) == Some(JStr(s.reason)) && Get(j, KStepId) == Some(JStr(s.stepId))
    ensures ToJsonEntries(s.arguments).Ok? && Get(j, KArguments) == Some(JDict(ToJsonEntries(s.arguments).value))
    ensures Get(j, KStatus) == Some(JStr(StepStatusName(s.status))) && Get(j, KRisk) == Some(JStr(RiskName(s.risk)))
    ensures Get(j, KReversibility) == Some(JStr(ReversibilityName(s.reversibility)))
    ensures Get(j, KCompensationStrategy) == Some(JStr(CompensationName(s.compensation)))
    ensures Get(j, KRollbackReliability) == Some(JFloat(s.rollbackReliability))
    ensures Get(j, KRequiredPermissions) == Some(JList(Each(PermissionJson, s.requiredPermissions)))
    ensures Get(j, KIdempotencyKey) == Some(OrNull(s.idempotencyKey, JText))
    ensures SerializeConditions(s.preconditions).Ok? && Get(j, KPreconditions) == Some(SerializeConditions(s.preconditions).value)
    ensures SerializeConditions(s.postconditions).Ok? && Get(j, KPostconditions) == Some(SerializeConditions(s.postconditions).value)
    ensures SerializeConditions(s.invariants).Ok? && Get(j, KInvariants) == Some(SerializeConditions(s.invariants).value)
  {
    hide ToJsonEntries, StepStatusName, RiskName, ReversibilityName, CompensationName, Each, OrNull, SerializeConditions;
  }

  lemma StepStatusBack(j: Json, status: StepStatus)
    requires Get(j, KStatus) == Some(JStr(StepStatusName(status)))
    ensures StepStatusAt(j) == Ok(status)
  {
    StatusNamesAreDistinct();
    MemberOfName(STEP_STATUSES, StepStatusName, status);
    hide StepStatusName, MemberOf, Injective;
  }

  lemma ReversibilityBack(j: Json, r: Reversibility)
    requires Get(j, KReversibility) == Some(JStr(ReversibilityName(r)))
    ensures ReversibilityAt(j) == Ok(r)
  {
    OtherNamesAreDistinct();
    MemberOfName(REVERSIBILITIES, ReversibilityName, r);
    hide ReversibilityName, MemberOf, Injective;
  }

  lemma CompensationBack(j: Json, c: Compensation)
    requires Get(j, KCompensationStrategy) == Some(JStr(CompensationName(c)))
    ensures CompensationAt(j) == Ok(c)
  {
    OtherNamesAreDistinct();
    MemberOfName(COMPENSATIONS, CompensationName, c);
    hide CompensationName, MemberOf, Injective;
  }

  lemma RiskAndPermissionsBack(j: Json, risk: Risk, permissions: seq<Permission>)
    requires Get(j, KRisk) == Some(JStr(RiskName(risk)))
    requires Get(j, KRequiredPermissions) == Some(JList(Each(PermissionJson, permissions)))
    ensures RiskAt(j) == Ok(risk) && PermissionsAt(j) == Ok(permissions)
  {
    PermissionAndRiskNames(ReadMemory, risk);
    PermissionsBack(permissions);
    hide RiskName, RiskOf, PermissionOfJson, PermissionJson, All, Each;
  }

  lemma MetadataBack(s: ActionStep, j: Json, call: ActionStep)
    requires SerializeStep(s) == Ok(j)
    ensures DeserializeMetadata(call, j) == Ok(call.(status := s.status, risk := s.risk, reversibility := s.reversibility,
      compensation := s.compensation, rollbackReliability := s.rollbackReliability, requiredPermissions := s.requiredPermissions))
  {
    StepObject(s, j);
    hide SerializeStep, Get, StepStatusAt, RiskAt, ReversibilityAt, CompensationAt, PermissionsAt;
    hide StepStatusName, RiskName, ReversibilityName, CompensationName, Each, OrNull, ToJsonEntries, SerializeConditions;
    StepStatusBack(j, s.status);
    ReversibilityBack(j, s.reversibility);
    CompensationBack(j, s.compensation);
    RiskAndPermissionsBack(j, s.risk, s.requiredPermissions);
  }

  lemma ArgumentsBack(j: Json, arguments: seq<Item>)
    requires ToJsonEntries(arguments).Ok? && Get(j, KArguments) == Some(JDict(ToJsonEntries(arguments).value))
    ensures ArgumentsAt(j) == Ok(ListedEntries(arguments))
  {
    EntriesBack(arguments);
    hide Get, ToJsonEntries, FromJsonEntries, ListedEntries, ExpressibleEntries;
  }

  lemma CallBack(s: ActionStep, j: Json)
    requires SerializeStep(s) == Ok(j)
    ensures DeserializeCall(j) == Ok(ActionStep(s.toolName, ListedEntries(s.arguments), s.reason, Pending, Low, Irreversible,
      NoCompensation, 0.0, [], [], None, s.idempotencyKey, [], [], [], s.stepId))
  {
    StepObject(s, j);
    ArgumentsBack(j, s.arguments);
    hide SerializeStep, Get, ArgumentsAt, StepStatusName, RiskName, ReversibilityName, CompensationName, Each, OrNull, SerializeConditions;
    hide ToJsonEntries, FromJsonEntries, ListedEntries, OptionalText;
    TextBack(j, KIdempotencyKey, s.idempotencyKey);
  }

  lemma ConditionsReadBack(j: Json, key: Key, cs: seq<StateCondition>)
    requires forall c :: c in cs ==> ValidCondition(c)
    requires SerializeConditions(cs).Ok? && Get(j, key) == Some(SerializeConditions(cs).value)
    ensures ConditionsAt(j, key) == Ok(Each(ListedCondition, cs))
  {
    ConditionsBack(cs);
    hide SerializeConditions, Get, All, Each;
  }

  lemma StepIsReadBack(s: ActionStep, j: Json)
    requires ValidStep(s) && SerializeStep(s) == Ok(j)
    ensures DeserializeStep(j) == Ok(ListedStep(s))
  {
    CallBack(s, j);
    MetadataBack(s, j, DeserializeCall(j).value);
    assert && SerializeConditions(s.preconditions).Ok? && Get(j, KPreconditions) == Some(SerializeConditions(s.preconditions).value)
           && SerializeConditions(s.postconditions).Ok? && Get(j, KPostconditions) == Some(SerializeConditions(s.postconditions).value)
           && SerializeConditions(s.invariants).Ok? && Get(j, KInvariants) == Some(SerializeConditions(s.invariants).value)
    by {
      StepObject(s, j);
    }
    ConditionsReadBack(j, KPreconditions, s.preconditions);
    ConditionsReadBack(j, KPostconditions, s.postconditions);
    ConditionsReadBack(j, KInvariants, s.invariants);
    hide SerializeStep, Get, DeserializeCall, DeserializeMetadata, ConditionsAt, ListedEntries, Each, ValidStep, SerializeConditions;
  }

  lemma StepBack(s: ActionStep)
    requires ValidStep(s)
    ensures SerializeStep(s).Ok? <==> ExpressibleStep(s)
    ensures SerializeStep(s).Ok? ==> DeserializeStep(SerializeStep(s).value) == Ok(ListedStep(s))
    ensures SerializeStep(ListedStep(s)) == SerializeStep(s)
  {
    EntriesBack(s.arguments);
    ConditionsBack(s.preconditions);
    ConditionsBack(s.postconditions);
    ConditionsBack(s.invariants);
    if SerializeStep(s).Ok? {
      StepIsReadBack(s, SerializeStep(s).value);
    }
    hide ToJsonEntries, FromJsonEntries, ListedEntries, Each, SerializeConditions, DeserializeStep, ExpressibleConditions, ExpressibleEntries;
  }

  // ---------- plans ----------

  function SerializePlan(p: Plan): Result<Json> {
    var goal :- SerializeGoal(p.goal);
    var steps :- All(SerializeStep, p.steps);
    Ok(JObject(map[
      KGoal := goal,
      KSteps := JList(steps),
      KPlanId := JStr(p.planId),
      KBudget := OrNull(p.budget, SerializeBudget)]))
  }

  function PlanBudgetAt(j: Json): Result<Option<Budget>> {
    match Get(j, KBudget)
    case None => Ok(None)
    case Some(JNull) => Ok(None)
    case Some(b) =>
      if b == JObject(map[]) then Ok(None)
      else
        var budget :- DeserializeBudget(b);
        Ok(Some(budget))
  }

  function Required(j: Option<Json>): Result<Json> {
    match j case Some(v) => Ok(v) case None => Err
  }

  /** The new plan is created now. */
  function DeserializePlan(j: Json, now: real): Result<Plan> {
    var goalObject :- Required(Get(j, KGoal));
    var goal :- DeserializeGoal(goalObject);
    var items :- ItemsAt(j, KSteps);
    var steps :- All(DeserializeStep, items);
    var budget :- PlanBudgetAt(j);
    var planId :- TextAt(j, KPlanId, Some(""));
    Ok(Plan(goal, steps, planId, now, budget))
  }

  predicate ExpressiblePlan(p: Plan) {
    ExpressibleGoal(p.goal) && forall s :: s in p.steps ==> ExpressibleStep(s)
  }

  /** The plan as it comes back: created now, without predictions and counterfactual reports,
      and with lists in place of tuples; everything else is the same. */
  function Restored(p: Plan, now: real): Plan {
    p.(goal := ListedGoal(p.goal), steps := Each(ListedStep, p.steps), createdAt := now)
  }

  lemma StepsBack(steps: seq<ActionStep>)
    requires forall s :: s in steps ==> ValidStep(s)
    ensures All(SerializeStep, steps).Ok? <==> forall s :: s in steps ==> ExpressibleStep(s)
    ensures All(SerializeStep, steps).Ok? ==> All(DeserializeStep, All(SerializeStep, steps).value) == Ok(Each(ListedStep, steps))
    ensures All(SerializeStep, Each(ListedStep, steps)) == All(SerializeStep, steps)
  {
    forall s | s in steps
      ensures SerializeStep(s).Ok? <==> ExpressibleStep(s)
      ensures SerializeStep(s).Ok? ==> DeserializeStep(SerializeStep(s).value) == Ok(ListedStep(s))
      ensures SerializeStep(ListedStep(s)) == SerializeStep(s)
    {
      StepBack(s);
    }
    AllBack(SerializeStep, DeserializeStep, ListedStep, steps);
    AllAgain(SerializeStep, ListedStep, steps);
    AllOkIff(SerializeStep, s => ExpressibleStep(s), steps);
    hide SerializeStep, DeserializeStep, ListedStep, All, Each, ExpressibleStep;
  }

  lemma PlanBudgetBack(j: Json, budget: Option<Budget>)
    requires budget.Some? ==> ValidBudget(budget.value)
    requires Get(j, KBudget) == Some(OrNull(budget, SerializeBudget))
    ensures PlanBudgetAt(j) == Ok(budget)
  {
    if budget.Some? {
      BudgetBack(budget.value);
      assert KMaxTokens in SerializeBudget(budget.value).fields;
    }
    hide SerializeBudget, DeserializeBudget, ValidBudget;
  }

  lemma PlanObject(p: Plan, j: Json)
    requires SerializePlan(p) == Ok(j)
    ensures SerializeGoal(p.goal).Ok? && Get(j, KGoal) == Some(SerializeGoal(p.goal).value)
    ensures All(SerializeStep, p.steps).Ok? && ItemsAt(j, KSteps) == Ok(All(SerializeStep, p.steps).value)
    ensures TextAt(j, KPlanId, Some("")) == Ok(p.planId) && Get(j, KBudget) == Some(OrNull(p.budget, SerializeBudget))
  {
    hide SerializeGoal, SerializeBudget, SerializeStep, All, OrNull;
  }

  lemma PlanIsReadBack(p: Plan, j: Json, now: real)
    requires ValidPlan(p) && SerializePlan(p) == Ok(j)
    ensures DeserializePlan(j, now) == Ok(Restored(p, now))
  {
    PlanObject(p, j);
    GoalBack(p.goal);
    StepsBack(p.steps);
    PlanBudgetBack(j, p.budget);
    hide SerializePlan, SerializeGoal, DeserializeGoal, SerializeBudget, SerializeStep, DeserializeStep, All, Each, ListedGoal;
    hide Get, ItemsAt, TextAt, PlanBudgetAt, OrNull, ValidPlan;
  }

  /** A plan can be written iff every value it carries is one JSON can express; what was written
      is read back as the same plan; and writing that again gives the same tree. */
  lemma PlanRoundTrip(p: Plan, now: real)
    requires ValidPlan(p)
    ensures SerializePlan(p).Ok? <==> ExpressiblePlan(p)
    ensures SerializePlan(p).Ok? ==> DeserializePlan(SerializePlan(p).value, now) == Ok(Restored(p, now))
    ensures SerializePlan(Restored(p, now)) == SerializePlan(p)
  {
    GoalBack(p.goal);
    StepsBack(p.steps);
    if SerializePlan(p).Ok? {
      PlanIsReadBack(p, SerializePlan(p).value, now);
    }
    hide SerializeGoal, SerializeBudget, SerializeStep, All, Each, ListedGoal, DeserializePlan;
  }
}
